# psrp-rs, modelled and verified in Dafny

psrp-rs is a client for the PowerShell Remoting Protocol (MS-PSRP). Its transports are plumbing; the layers between
the byte stream and the typed objects are written by hand, keep state and are deterministic. This project models
those layers and proves what they promise, for all inputs, all runs and all ways to cut or drop them.

## The layers

| files | what they model |
|---|---|
| `Common`, `Numbers`, `Text` | shared types; fixed-width integers; decimal, hexadecimal, GUID and UTF-8 texts |
| `Fragments`, `Reassembly` | the fragment layer (section 2.2.4 of MS-PSRP): the streaming reassembler, and what it computes over any interleaving |
| `Lines`, `Packets` | the out-of-process framing: the line splitter and the packet codec |
| `Server` | the executable honest server, with its list of violations |
| `Session`, `Engine`, `Runs` | the stop-and-wait session: a class whose operations may be dropped at any await, and whole runs of it |
| `Base64`, `Escapes`, `Xml` | base64, the two escaping layers of CLIXML text, and XML as a stream of events |
| `Values`, `Encoder`, `RoundTrip`, `RefIds` | CLIXML values (section 2.2.5 of MS-PSRP), the writer, and the round trip |
| `Decoder`, `Reader`, `References`, `Bounds` | the decoder as a specification and as the loops that compute it; its reference table; what a document can cost |
| `Inlining`, `SharedObjects` | what a reference means: a document with references against the one with copies, and exactly when an object written once is read twice |
| `CreatePipeline`, `PipelineBuilder`, `PipelineDecoding`, `PipelineIds`, `PipelineContent` | the `CreatePipeline` document, its builder, its meaning, and what a server finds in it under the names of the protocol |
| `Crypto`, `Secrets` | the `SecureString` cipher, and secrets inside values |
| `HostCalls`, `Inbox`, `PoolModel`, `PoolRuns`, `Pool` | host calls and answers, the reading side, the pool driver as functions of its state, what holds after every run, and the class that computes them |
| `Pipelines` | the two receive loops of a pipeline |
| `Messages`, `Stack`, `Glob` | the message header, the layers composed, and the wildcard matcher of the known-hosts file |
| `WireForm`, `ClixmlForm` | each format byte by byte and letter by letter, independent of the functions that read it back |

Code that changes state step by step is a class or a method with loops, proved against a specification function; the
theorems are about those functions. The source's `?` is a `Result` that stops where the source stops.

How the outside is modelled:

- A future may be dropped, and a timer may fire, at every `.await` of the session: such operations end in `Dropped`
  or in a timeout of the model's choosing. A write that fails or is dropped may have put any first part of its bytes
  on the wire. An arbitrary peer is any list of chunks; the honest server is the model of `src/out_of_proc/fake.rs`.
- The XML reader is a library. For packets it is a function from a line to events, assumed only to read the lines the
  packet codec writes; `Packets.SomeReaderIsFaithful` shows that such a function exists. For CLIXML a document is the
  sequence of events of the reader, text and attributes still escaped, a syntax error being an event of its own.
- AES-256 under a key is any permutation of 16-byte blocks. RSA key unwrapping, the host and the CLIXML decoder as the
  pool and the pipeline loops use it are function parameters.
- A transport may refuse any send; for a pool, which of its tries it accepts is a function parameter, as are the results
  of its key generations.

Results worth knowing:

- `Reader.ClixmlReader` keeps its accounting on every path, failures included: the nesting counter is restored and at
  most 64, and `expanded` is exactly the sum of the true weights of the copies.
- `References.ReferenceTableIsSound` holds in both directions: a document the bounded decoder does not refuse for its
  references has the same result, or the same fault, under the plain one.
- A reference means a copy: `Inlining.ReferencesAreCopies` replaces every `<Ref>` and `<TNRef>` of a document by the object
  or list it names and drops all ids, and the document reads the same, faults included. The exceptions are stated: the
  copies may nest too deep for the decoder, and the decoder may refuse a reference for its limits, exactly when
  `SharedObjects` says.
- A self-closed `<Ref/>` directly in an object, outside a member set or a list, is passed over by the code, unlike one
  with an end tag.
- Round trips alone would allow a codec to agree only with itself. `WireForm`, `ClixmlForm`, `PipelineContent`,
  `Packets.LinesAsWritten`, `HostCalls.AnswerSays` and `Pipelines.RunsEndAsReported` therefore state what is on the wire in
  literals: bytes, tags, names and codes.
- `feed` drops the payloads it completed earlier in the call that fails; the chunk laws are therefore about calls that
  succeed, and say that the verdict is the same for every cut.
- The fuzzing crate's documentation calls container wrapping the only change the codec makes (`Values.Wrap`). The code
  also trims decimals, maps characters outside the Basic Multilingual Plane to U+FFFD, and drops `_value` where there
  are other properties or it holds `Null`; a container already under a `_value` it does not wrap again. `Values.Norm`
  follows the code, and `RefIds.DocumentedRoundTrip` says for exactly which values the documentation is right; the
  fuzzer's generator of safe values stays among them.
- A byte order mark at the start of a message body is stripped, and a known code sent as `Unknown` comes back under its
  name: `Messages.MessageIdentity` says that nothing else changes.
- `base64_decode` skips blanks and accepts leftover bits, so it is not injective (`Base64.NotCanonical`); encoding gives
  a decoded text back exactly when it has neither (`Base64.EncodeOfDecode`).
- While the stream goes on and no line of it is refused, every receive that is not dropped brings a payload. A client
  that reads on then gets all there is, if and only if its queue has room for the payloads that any one chunk completes
  (`Runs.RunAgainstAnyPeer`, `Stack.Deliver`); room for the whole stream is more than enough (`Session.RoomForAll`).
- The oracle of the honest server is stricter than the fake in one point: a signal for a pipeline whose command is not
  open is a violation too.
- The pool driver is modelled as functions of its state and of the world around it, the class is proved to compute
  them, and `PoolRuns.EveryRunIsSound` is about all runs: what a pool owes is a function of the messages it took, and
  each debt is settled, parked or lost. Lost means that the call gets no answer: its send was refused, or the exchange
  it needed could not be started. That never happens silently (`PoolRuns.NothingIsLostSilently`).
- A session and an honest server never wait for each other in vain (`Engine.OutOfProcSession.AckIsComing`): undisturbed,
  every operation ends well, or with the queue that overflowed (`Runs.RunAgainstHonestServer`).

## Model

| member | source | states |
|---|---|---|
| Runs.RunAgainstHonestServer | src/out_of_proc/session.rs:146-284 | For every list of operations, each dropped or timed out at any await, the honest server records no violation: no request before the previous acknowledgement was read, no data or signal without an open command, no command twice, no session close with a command open; each send that ended well stands whole in the data the lines carried; and with no read cut short, no write unfinished and a server that stays, every operation ends well, unless the queue overflowed or a receive waits for a server that has nothing to say |
| Runs.RunAgainstAnyPeer | src/out_of_proc/session.rs:146-413 | For every peer and every list of operations: the bytes written are whole request lines and at most one torn line at the end; from any moment at which the session is dead to any later one it writes nothing and keeps its first reason; data per pipeline is whole payloads of the sends, at most the last one cut, those that ended well among them; the payloads returned are, in order, a prefix of those in the bytes the peer sent, however they were cut; a patient run (receives only, an unending stream of lines no session refuses, one receive for each payload and one for each drop) returns them all if and only if the queue has room for what any one chunk completes |
| Runs.Perform | src/out_of_proc/session.rs:146-235 | One operation of a run keeps the session invariant, adds what `recv` returned to the returned payloads, and at most one send to the sends, whole if it ended well; a receive over harmless bytes makes progress |
| Runs.FinishedSendsAreWhole | src/out_of_proc/session.rs:146-177 | Every send of a run that ended well is among its sends with the whole payload out |
| Session.RoomForAll | src/out_of_proc/session.rs:359-371 | A queue with room for the payloads of a whole stream has room for those of each chunk |
| Engine.OutOfProcSession.constructor | src/out_of_proc/session.rs:112-127 | A new session satisfies the invariant that ties command state, queue, bytes written, bytes read and an honest server together |
| Engine.OutOfProcSession.Send | src/out_of_proc/session.rs:146-177 | A finished `send` delivered the whole payload in acknowledged lines; an unfinished one is recorded with how much went out, and a dropped one of several lines leaves the mark that stops every later operation; a dead session refuses; an empty payload does nothing; on success the bytes written are those that open the command and then the data lines of the payload |
| Engine.OutOfProcSession.OpenCommand | src/out_of_proc/session.rs:151-163 | Before pipeline data the pipeline's command is the open one, another one having been closed first: nothing more, a `<Command>` line, or a `<Close>` line for the other one and then it |
| Engine.OutOfProcSession.SendChunks | src/out_of_proc/session.rs:164-176 | The chunk loop: whole lines carry a prefix of the payload, and all of it exactly when the loop ends well; on success exactly the `<Data>` lines of the payload, 32 KiB each in base64, are added to what was written |
| Engine.OutOfProcSession.Recv | src/out_of_proc/session.rs:184-194 | With a queued payload the oldest one is returned, even from a broken session, and the pipe is not touched; the result is dropped only if a read of the pipe was; a failure is the sticky reason and leaves nothing queued; over bytes no session refuses nothing fails while each chunk fits in the queue, and one that does not is never made up for |
| Engine.OutOfProcSession.Dequeue | src/out_of_proc/session.rs:198-206 | The oldest payload leaves the queue, none only if the queue is empty, and the byte count stays exact |
| Engine.OutOfProcSession.SignalOpen | src/out_of_proc/session.rs:209-220 | Signals exactly the open command, and writes nothing when none is open; however it ends, at most that one line is added; on success exactly the bytes of the `<Signal>` line with the id of the command |
| Engine.OutOfProcSession.CloseSession | src/out_of_proc/session.rs:225-235 | The last line is the session close, with no command open any more: exactly a `<Close>` line for the open command, if there is one, and one for the nil id are added to what was written |
| Engine.OutOfProcSession.Request | src/out_of_proc/session.rs:244-252 | A request that ends well wrote its line once, read its acknowledgement and moved the command state by it; a timeout breaks the session |
| Engine.OutOfProcSession.Exchange | src/out_of_proc/session.rs:254-264 | Settles, writes, settles: nothing is awaited afterwards |
| Engine.OutOfProcSession.Transmit | src/out_of_proc/session.rs:256-262 | The awaited acknowledgement is recorded before the write, and a dropped write leaves it awaited and leaves the mark that stops all later ones |
| Engine.OutOfProcSession.Settle | src/out_of_proc/session.rs:267-272 | Reads until nothing is awaited; the command state moves only by the awaited acknowledgement |
| Engine.OutOfProcSession.AckIsComing | src/out_of_proc/session.rs:267-272 | While an acknowledgement of an honest server is awaited there is something to read: the wait cannot be in vain |
| Engine.OutOfProcSession.SettleBounded | src/out_of_proc/session.rs:276-284 | The same within the acknowledgement timeout, which breaks the session when it elapses |
| Engine.OutOfProcSession.Pump | src/out_of_proc/session.rs:312-320 | One chunk and every line it completes; a dropped one leaves session and splitter as they were; over lines no session refuses and from an empty queue it fails exactly when the chunk overfills it |
| Engine.OutOfProcSession.Process | src/out_of_proc/session.rs:323-329 | What is accepted depends only on the bytes read, not on the chunks they came in; lines no session refuses are taken if and only if their payloads fit in the queue |
| Engine.OutOfProcSession.OnLine | src/out_of_proc/session.rs:331-357 | Data is queued, the awaited acknowledgement is taken, any other line breaks the session |
| Engine.OutOfProcSession.Queue | src/out_of_proc/session.rs:359-371 | A payload is queued exactly when the total of payload bytes and overhead stays within the limit |
| Engine.OutOfProcSession.Usable | src/out_of_proc/session.rs:382-391 | A broken session or an abandoned write refuses every request |
| Engine.OutOfProcSession.Ready | src/out_of_proc/session.rs:396-404 | An abandoned payload refuses every operation as well |
| Engine.OutOfProcSession.Fail | src/out_of_proc/session.rs:407-413 | The first reason is kept for good |
| Session.AgreeHears | src/out_of_proc/session.rs:373-380 | Reading the next packet keeps client and honest server in agreement; the only acknowledgement on its way is the awaited one |
| Session.AckOfAllowed | src/out_of_proc/session.rs:373-380 | A request the client may make breaks no rule of the server, and its acknowledgement moves the client's command state exactly as the server's open set moved |
| Session.Pipe.Write | src/out_of_proc/session.rs:75-75 | A write puts all of the bytes on the wire, or any first part of them when it fails or is dropped |
| Session.Pipe.Read | src/out_of_proc/session.rs:78-78 | A read brings the next bytes, the end of the stream, or is dropped with nothing lost |
| Server.HonestServer.ClientLine | src/out_of_proc/fake.rs:110-149 | A live server records a violation exactly when a line comes before the last acknowledgement was read or breaks a rule; else it acknowledges the request once or dies; no violation is ever taken back |
| Server.HonestServer.ClientBytes | src/out_of_proc/fake.rs:101-108 | Bytes without a newline only wait; a legal line is acknowledged without a violation; if the first line completed is not legal a violation is recorded |
| Server.HonestServer.ReactToLines | src/out_of_proc/fake.rs:101-108 | The loop over complete lines: one legal line is acknowledged without a violation, an illegal first one recorded |
| Server.HonestServer.React | src/out_of_proc/fake.rs:151-255 | The reaction to each packet: which rule it breaks, the one about signals without a command included, or its acknowledgement and the new open set |
| Server.HonestServer.EmitPacket | src/out_of_proc/fake.rs:323-334 | What is queued, what was read and where the last acknowledgement ends stay exact |
| Server.OneAck | src/out_of_proc/fake.rs:110-149 | A reply holds exactly one acknowledgement whatever data surrounds it |
| Server.AckAnswersInKind | src/out_of_proc/fake.rs:151-255 | A request is acknowledged to the pipeline it came from, by the element of its own name with `Ack` added |
| Server.LegalRequests | src/out_of_proc/fake.rs:151-255 | Which requests break no rule while these commands are open, in both directions, and which commands are open afterwards |
| Packets.LineRoundTrip | src/out_of_proc/packet.rs:78-128 | Every packet parses back from the line it is written as |
| Packets.LinesDiffer | src/out_of_proc/packet.rs:78-105 | No two packets are written alike |
| Packets.LinesAsWritten | src/out_of_proc/packet.rs:78-105 | The eight lines in full: element, quotes, attribute names, stream name, and the closing of the element |
| Packets.ElementNames | src/out_of_proc/packet.rs:78-105 | Read off the line, between `<` and the first blank, the element is the one of the packet |
| Packets.RequestLines | src/out_of_proc/packet.rs:78-105 | The four lines a client writes, newline included, are the literal texts the session contracts speak of |
| Packets.PacketsTaken | src/out_of_proc/packet.rs:161-275 | Whatever is taken for a packet is one element under its name, with exactly its attributes and, for data, one text |
| Packets.DataSpellings | src/out_of_proc/packet.rs:212-275 | The two attributes of `Data` are taken in either order, the stream name in any case |
| Packets.SomeReaderIsFaithful | src/out_of_proc/packet.rs:161-210 | What is assumed of the XML reader, on written lines only, can be met |
| Packets.ServerRecordSpells | src/out_of_proc/packet.rs:335-353 | A server line with CRLF finishes as the text of its packet, within the line limit |
| Lines.LineSplitter.PushBytes | src/out_of_proc/packet.rs:303-333 | The loop computes the specification: complete lines, first error, bytes kept |
| Lines.PushSplit | src/out_of_proc/packet.rs:303-333 | Framing does not matter: the same lines before the same first error for every cut of the input |
| Lines.PushKeepsPartial | src/out_of_proc/packet.rs:303-353 | The buffer never holds a newline nor more than the line limit |
| Lines.PushRecords | src/out_of_proc/packet.rs:303-353 | Any chunk of a stream of well-formed lines completes exactly the next of them |
| WireForm.LineAsRead | src/out_of_proc/packet.rs:303-353 | A line ends at LF, one CR before it goes too, and a byte order mark on the very first line |
| Fragments.SplitMessage | src/fragment.rs:85-113 | The chunk loop builds the fragments of the specification, at least one |
| Fragments.DecodeEncoded | src/fragment.rs:64-79 | An encoded fragment decodes to itself and leaves the bytes after it |
| Fragments.ParseEncoded | src/fragment.rs:118-130 | A concatenation of encoded fragments parses to exactly those fragments |
| WireForm.FragmentBytes | src/fragment.rs:51-80 | The 21 bytes of a fragment header, field by field: both ids, start as bit 0 and end as bit 1, length, the most significant byte first; then the blob |
| WireForm.PiecesOfAMessage | src/fragment.rs:85-113 | Pieces of 32 KiB in order, numbered from 0, only the first marked as start, only the last as end |
| Fragments.Reassembler.AcceptFragment | src/fragment.rs:204-250 | One turn of the loop is one step of the specification, its errors included |
| Fragments.Reassembler.FeedBytes | src/fragment.rs:200-255 | A call of `feed` computes the specification, on errors too |
| Fragments.FeedSplit | src/fragment.rs:200-255 | `feed(a + b)` succeeds exactly when `feed(a)` then `feed(b)` do, with the outputs concatenated and the same final state |
| Fragments.FeedChunks | src/fragment.rs:200-255 | The same for any chunking |
| Reassembly.AbsorbIsExact | src/fragment.rs:200-255 | `feed` accepts exactly the lists in which every fragment continues its object, and then returns and remembers what they spell: every in-flight entry started, its next id the fragments seen |
| Reassembly.InterleavedMessagesArrive | src/fragment.rs:85-262 | Any order-preserving interleaving of messages under distinct ids, in any chunks, yields each payload intact, in the order of the end fragments, and leaves the reassembler idle |
| Reassembly.EachMessageOnce | src/fragment.rs:85-130 | Among those end fragments every message stands exactly once |
| Reassembly.FeedConserves | src/fragment.rs:200-255 | On success bytes are conserved: fed is buffered, 21 per fragment, in flight and emitted |
| Glob.GlobMatchBytes | src/ssh.rs:888-923 | True exactly when the declarative relation holds, although only the last star is kept, in at most (pattern+1)*(target+1) turns |
| Glob.HostMatchesPatterns | src/ssh.rs:852-868 | A list matches exactly when some positive pattern matches and no negated one does, whatever the order |
| WireForm.LiteralPattern | src/ssh.rs:888-923 | A pattern without wildcards matches exactly what it spells, up to case |
| WireForm.WildcardsAsMeant | src/ssh.rs:852-923 | `*` is any run, `?` any byte, a leading `!` turns an entry round |
| WireForm.CaseOfLetters | src/ssh.rs:888-923 | Two bytes match exactly when they are equal or the same ASCII letter; `*`, `?` and `!` are the special ones |
| Base64.RoundTrip | src/clixml/encode.rs:379-408 | Decoding undoes encoding for every byte sequence |
| Base64.StreamingIsGroups | src/clixml/encode.rs:656-699 | The streaming 6-bit accumulator accepts exactly the texts a reading by groups of four accepts, with the same bytes |
| Base64.EncodeLoop | src/clixml/encode.rs:379-408 | The chunk loop computes the encoding |
| WireForm.GroupOfSymbols | src/clixml/encode.rs:368-408 | A group is 24 bits, the first byte the most significant, in four symbols of the alphabet |
| WireForm.AlphabetAsListed | src/clixml/encode.rs:368-377 | The alphabet of section 4 of RFC 4648 |
| WireForm.GroupsAsWritten | src/clixml/encode.rs:379-408 | The groups one after the other, the rest filled up with zero bits and `=` |
| Base64.DecodeLoop | src/clixml/encode.rs:656-699 | The loops compute the reading by groups although the accumulator is never masked |
| Base64.UnmaskedAccumulator | src/clixml/encode.rs:688-696 | The bits above the ones still wanted never reach an output byte |
| Base64.NotCanonical | src/clixml/encode.rs:647-655 | Two texts that decode alike, one of them with leftover bits, which are not checked |
| Base64.EncodeOfDecode | src/clixml/encode.rs:647-699 | For every text that decodes: encoding the bytes gives the text back exactly when it holds no skipped blank and the leftover bits of a padded last group are zero |
| Escapes.EscapeRoundTrip | src/clixml/encode.rs:329-365 | XML unescaping then escape decoding inverts both `escape` and `escape_attr` on every string |
| Escapes.EscapeLoop | src/clixml/encode.rs:329-365 | The peeking loop computes the escaping |
| Escapes.DecodeLoop | src/clixml/decode.rs:809-839 | The loop that copies up to the next underscore computes the decoding |
| Escapes.SurrogatePairsRoundTrip | src/clixml/decode.rs:809-849 | A run of escapes is read as UTF-16: the escapes of any string, surrogate pairs included, decode to it |
| Xml.EscapedText | src/clixml/decode.rs:721-762 | Reading an element whose text was escaped gives the text back |
| Xml.ReadLexed | src/clixml/decode.rs:721-762 | Reading text does not depend on how runs and references are cut into events |
| Xml.NoBreakInAttribute | src/clixml/encode.rs:316-365 | An escaped attribute holds nothing that attribute-value normalization would change |
| Xml.ReadName | src/clixml/decode.rs:160-171 | Every property name comes back through its attribute |
| Values.MeasureSaturates | src/clixml/decode.rs:224-272 | The saturating folds compute the true weight and height, cut at the integer widths |
| Values.WeightOfLeaf | src/clixml/decode.rs:219-272 | What a leaf weighs: its text in UTF-8, its bytes, and one |
| Values.WeightOfItems | src/clixml/decode.rs:219-272 | One more item adds its weight to a list, and its height if that is the highest |
| Values.WeightOfEntries | src/clixml/decode.rs:219-272 | The same for one more entry of a dictionary |
| Values.WeightOfObject | src/clixml/decode.rs:219-272 | What type names, display text and one more property add to an object |
| Values.InsertFinds | src/clixml/decode.rs:566-603 | After an insertion the name has the new value, every other name its old one; a known name keeps its place, a new one goes last |
| Values.NormIdempotent | fuzz/fuzz_targets/clixml_encode_decode.rs:4-11 | The normal form is a fixed point: a second hop changes nothing |
| Values.NormIsWrap | fuzz/src/lib.rs:192-231 | What the codec does to a value is the documented container wrapping exactly when decimals are trimmed, characters are in the Basic Multilingual Plane, and a property called `_value` is the only one and neither `Null` nor a container, all the way down |
| Values.NotOnlyWrapped | fuzz/src/lib.rs:192-231 | Two values on which the codec does more: a decimal with a blank, and an object with `_value` beside another property |
| Encoder.Writer.Value | src/clixml/encode.rs:67-109 | The writer appends exactly the specified events and leaves the allocator at the specified id, for every value |
| Encoder.Writer.Items | src/clixml/encode.rs:121-144 | A list body |
| Encoder.Writer.Entries | src/clixml/encode.rs:121-144 | A dictionary body |
| Encoder.Writer.ObjectValue | src/clixml/encode.rs:211-253 | Type names, display text, bare `_value`, then the other properties |
| Encoder.Writer.NewId | src/clixml/encode.rs:49-56 | Ids count up and the last one repeats |
| ClixmlForm.ScalarAsWritten | src/clixml/encode.rs:67-119 | The element of every value that is neither number, text nor container: tag, name attribute and text, in literals |
| ClixmlForm.IntAsWritten | src/clixml/encode.rs:67-119 | The eight integer tags |
| ClixmlForm.TextualAsWritten | src/clixml/encode.rs:67-119 | The eight text-like tags |
| ClixmlForm.ContainerAsWritten | src/clixml/encode.rs:121-144 | A list stands in `<LST>`, a dictionary in `<DCT>`, each in an `<Obj>` of its own with its id |
| ClixmlForm.EntryAsWritten | src/clixml/encode.rs:121-144 | An entry is an `<En>` with the key named `Key` before the value named `Value` |
| ClixmlForm.ObjectAsWritten | src/clixml/encode.rs:211-252 | An object is its `<TN>` under an id of its own, its `<ToString>`, its bare `_value`, its `<MS>`, in this order |
| ClixmlForm.TypeNameAsWritten | src/clixml/encode.rs:211-252 | The type names stand in `<T>` elements in their order |
| ClixmlForm.DocumentAsWritten | src/clixml/encode.rs:14-18 | A small document, event by event |
| ClixmlForm.TextAsWritten | src/clixml/encode.rs:329-365 | Which characters go out as which entity, which as a PowerShell escape, and that all others stand for themselves |
| ClixmlForm.EscapeAsWritten | src/clixml/encode.rs:329-365 | A PowerShell escape is `_x`, four uppercase digits and `_` |
| ClixmlForm.EscapeAsRead | src/clixml/decode.rs:845-853 | An escape is read with digits of either case |
| ClixmlForm.ReferencesAsRead | src/clixml/decode.rs:721-768 | The five entities and numeric references of XML |
| ClixmlForm.BreaksAreSpaces | src/clixml/decode.rs:160-182 | Tabs and line breaks in an attribute are spaces, as the reader normalizes them |
| ClixmlForm.SpellingsTaken | src/clixml/decode.rs:333-484 | Booleans in any case or as digits, a plus sign, code points that are no characters, every form of a GUID |
| ClixmlForm.ListsTaken | src/clixml/decode.rs:486-564 | Queues, stacks and enumerations are read as lists |
| ClixmlForm.MemberSetsTaken | src/clixml/decode.rs:486-564 | `<MS>` and `<Props>` are read alike |
| ClixmlForm.EmptyFormsTaken | src/clixml/decode.rs:274-287 | What the self-closed forms stand for |
| ClixmlForm.FirstBareValue | src/clixml/decode.rs:486-564 | Of several bare values in an object the first counts |
| ClixmlForm.EmbeddedValue | src/clixml/decode.rs:486-564 | A bare value shows as `_value`, and only where there is no property |
| ClixmlForm.TextPieces | src/clixml/decode.rs:721-768 | What counts as the text of an element and what ends it |
| ClixmlForm.FillerPassedOver | src/clixml/decode.rs:566-698 | Text and comments between elements change nothing |
| ClixmlForm.UnknownIsSkipped | src/clixml/decode.rs:770-800 | An unknown element is skipped whole |
| ClixmlForm.CutShort | src/clixml/decode.rs:486-698 | A document cut short inside an element is refused |
| ClixmlForm.RangesAsSet | src/clixml/decode.rs:289-298 | The ranges of the eight integer kinds |
| RefIds.ValueIssues | src/clixml/encode.rs:49-56 | An encoded value issues consecutive ids starting with its own, names no reference, and points to no type-name list |
| RoundTrip.ReadValue | src/clixml/decode.rs:315-484 | Reading an encoded value anywhere in a document gives its normal form and stops right behind it, or fails for nesting; type names under older ids are untouched |
| RefIds.CodecRoundTrip | src/clixml/encode.rs:67-252 | Decoding the encoding of any value gives exactly its normal form, if and only if its elements nest within 64 levels; deeper it is refused as too deep |
| RefIds.DocumentedRoundTrip | fuzz/src/lib.rs:192-231 | The documented round trip, to the wrapped value, holds if and only if the value nests within 64 levels and wrapping is all there is to do to it |
| RefIds.CodecSettles | src/clixml/encode.rs:67-252 | What was decoded once encodes and decodes to itself |
| RefIds.NormFits | src/clixml/decode.rs:315-331 | The normal form nests no deeper than the value |
| Reader.ParseClixml | src/clixml/decode.rs:21-56 | The decoder computes the specification, and no value it returns is higher than twice the nesting limit |
| Reader.ReferencedIds | src/clixml/decode.rs:105-122 | The pre-scan finds the ids named by references before the first syntax error |
| Reader.ClixmlReader.constructor | src/clixml/decode.rs:124-136 | A fresh decoder satisfies the accounting invariant |
| Reader.ClixmlReader.Charge | src/clixml/decode.rs:139-149 | A copy is paid for or refused, and nothing changes when it is refused |
| Reader.ClixmlReader.ResolveRef | src/clixml/decode.rs:204-217 | A copy of the kept object, `Null` for an unknown id, or a refusal; on every path the summed weights of the copies are what was charged; what it yields is pinned by `Inlining.ReferencesAreCopies` and `SharedObjects.WrittenOnceReadTwice` |
| Reader.ClixmlReader.ParseElement | src/clixml/decode.rs:315-331 | The depth is restored whatever happened below, and never exceeds 64 |
| Reader.ClixmlReader.ParseInner | src/clixml/decode.rs:333-484 | Every element kind as specified; a finished object is kept only if some reference names it |
| Reader.ClixmlReader.ParseObjBody | src/clixml/decode.rs:486-564 | The body loop as specified |
| Reader.ClixmlReader.ParseMemberSet | src/clixml/decode.rs:566-603 | The member loop as specified |
| Reader.ClixmlReader.ParseList | src/clixml/decode.rs:605-634 | The list loop as specified |
| Reader.ClixmlReader.ParseDict | src/clixml/decode.rs:636-658 | The dictionary loop as specified |
| Reader.ClixmlReader.ParseDictEntry | src/clixml/decode.rs:660-698 | The entry loop as specified |
| Reader.ClixmlReader.ReadText | src/clixml/decode.rs:721-762 | The text loop as specified |
| Reader.ClixmlReader.SkipToEnd | src/clixml/decode.rs:770-793 | The skip loop as specified |
| Reader.ClixmlReader.ParseTypeNames | src/clixml/decode.rs:700-719 | The type-name loop as specified |
| Reader.ClixmlReader.ParseEmpty | src/clixml/decode.rs:274-287 | Self-closed elements as specified |
| References.ReferenceTableIsSound | src/clixml/decode.rs:98-217 | Pre-scan, budget and depth check only ever refuse a reference: any other result, fault included, is that of a plain decoder that keeps every object and checks nothing |
| References.ElementAgrees | src/clixml/decode.rs:315-484 | The same for one element in the middle of a document, from any two states that agree on the referenced objects |
| Inlining.ReferencesAreCopies | src/clixml/decode.rs:188-217 | For every tidy document (each kind of element with the content that belongs to it): with a copy in the place of every reference to a finished object or type-name list, and no ids, it decodes to the same values or the same fault, unless the copies nest too deep or the decoder refuses a reference for its limits; a reference to nothing finished stays `Null` |
| Inlining.ElementAlike | src/clixml/decode.rs:315-484 | The same for one element read from any state that knows the objects of the table, against any other state and policy |
| Inlining.BodyAlike | src/clixml/decode.rs:486-564 | ... for the body of an object, type names by reference included |
| SharedObjects.WrittenOnceReadTwice | src/clixml/decode.rs:139-217 | An object and a reference to it, in either form, decode to the object twice exactly when it nests within the limit, its copy does, and the copy in the table and the one handed out fit in the budget together; else the fault is the first of these that fails |
| SharedObjects.ItemReference | src/clixml/decode.rs:605-634 | As an item of a list a reference adds the object it names, or fails as granted |
| SharedObjects.MemberReference | src/clixml/decode.rs:566-603 | As a member it sets the property of its name to the object |
| SharedObjects.HalfReference | src/clixml/decode.rs:660-698 | As a key or a value it becomes that half of the entry |
| SharedObjects.TopReference | src/clixml/decode.rs:37-50 | At the top of a document it is one more value |
| SharedObjects.CycleIsNull | src/clixml/decode.rs:188-217 | An object that refers to itself has `Null` in that place |
| Bounds.DecodedHeight | src/clixml/decode.rs:58-69 | On every event stream, balanced or not, what comes out is at most twice as high as the nesting limit |
| Bounds.ElementIsBounded | src/clixml/decode.rs:204-331 | An element `depth` levels down is at most 2 * (64 - depth) high, and the copies stay within the budget at their true weight |
| Bounds.ChargeAccounts | src/clixml/decode.rs:139-149 | A charge succeeds exactly when the true weight still fits the budget: saturation never decides |
| Bounds.BudgetIsBounded | src/clixml/decode.rs:82-97 | The budget is between 1 Mi and 8 Mi for every document |
| PipelineIds.PipelineRoundTrip | src/clixml/encode.rs:481-645 | The document decodes to every command, flag, merge enumeration with its full type names, and argument in normal form, if and only if every argument nests within the 58 levels left; what that value holds is `PipelineContent.PipelineArrives` |
| PipelineIds.DocumentIdsAreDistinct | src/clixml/encode.rs:434-645 | No two elements of the document share an id, and every `TNRef` points to a `TN` before it |
| PipelineContent.PipelineArrives | src/clixml/encode.rs:481-645 | The document decodes, exactly when the arguments fit, to an object in which a server finds under the names of the protocol: every command in order with its name and flags, its eight merge numbers under their full type names, its arguments with name and value, a switch as true; and the options, the apartment state, no host of its own |
| PipelineContent.CommandIs | src/clixml/encode.rs:549-629 | One command as it is found |
| PipelineContent.MergeAsWritten | src/clixml/encode.rs:459-473 | A merge field in full: the pointer to its type names, the text it shows, its number |
| PipelineContent.MergesShown | src/clixml/encode.rs:564-622 | The texts the merge fields show |
| PipelineBuilder.BuildCreatePipelineXml | src/clixml/encode.rs:481-645 | The builder writes the specified document |
| PipelineBuilder.WriteCommands | src/clixml/encode.rs:549-629 | The loop over the commands: the first writes the type names in full, the others point to them |
| PipelineBuilder.WriteCommand | src/clixml/encode.rs:550-628 | One command |
| PipelineBuilder.WriteMerges | src/clixml/encode.rs:564-590 | The first three merge fields, and where their type names stand |
| PipelineBuilder.WriteEnumFirst | src/clixml/encode.rs:434-455 | An enumeration with its type names; returns their id |
| PipelineBuilder.WriteEnumRef | src/clixml/encode.rs:459-473 | An enumeration that points back |
| PipelineDecoding.ReadCommand | src/clixml/decode.rs:499-545 | One command reads back, the shared type names resolved through the table |
| Crypto.DecryptIffEncrypt | src/crypto.rs:256-347 | Decryption accepts a payload with a plaintext exactly when the payload is the encryption of that plaintext, for every permutation in the place of AES |
| Crypto.Encrypt | src/crypto.rs:256-283 | The ciphertext is (utf16_bytes / 16 + 1) * 16 long |
| Crypto.SharedPrefix | src/crypto.rs:246-255 | Plaintexts that share their first 8k UTF-16 units share their first k blocks |
| WireForm.PaddedText | src/crypto.rs:256-272 | What is encrypted: each UTF-16 unit with its low byte first, then k bytes k up to a whole block |
| WireForm.BlocksAreChained | src/crypto.rs:273-283 | The first block is encrypted as it is, each other one together with the encrypted block before it |
| WireForm.Utf16Units | src/crypto.rs:256-272 | A character is its own unit or the surrogate pair of RFC 2781 |
| Crypto.EncryptLoop | src/crypto.rs:256-283 | The chaining loop computes the encryption |
| Crypto.EncryptBlocks | src/crypto.rs:256-283 | Block after block, each chained to the one before, is CBC of the padded text |
| Crypto.DecryptLoop | src/crypto.rs:299-347 | The loops compute the decryption, its refusals included |
| Crypto.XorInto | src/crypto.rs:275-277 | The in-place exclusive or of a block with the previous one |
| Crypto.XorIsBitwise | src/crypto.rs:275-277 | Each bit of the exclusive or is the sum of the two bits without a carry |
| Crypto.StripPadding | src/crypto.rs:318-332 | Accepts exactly well-formed PKCS#7 padding and cuts it off |
| Secrets.EncryptionFills | src/runspace/pool.rs:863-894 | Encryption replaces the secrets, in order, by their sealed forms and changes nothing else |
| Secrets.SecretsAreLeaves | src/runspace/pool.rs:849-861 | A value holds a secret exactly when it has such a leaf; without one encryption changes nothing |
| Secrets.SealedOpens | src/runspace/pool.rs:326-346 | A sealed text opens under the same key to its plaintext |
| Secrets.EncryptedValue | src/runspace/pool.rs:863-894 | The encrypted value is the given one with each secret, in order, the base64 of its encryption and nothing else changed |
| Secrets.EncryptedValueOpens | src/runspace/pool.rs:863-894 | ... and the other side opens each of them to the secret the host gave |
| HostCalls.CallSays | src/runspace/pool.rs:618-644 | A call is what its message has under `ci` and `mi`, the latter plain or wrapped, for the pipeline of the message, answered in kind; a message that has neither is refused |
| HostCalls.AnswerSays | src/runspace/pool.rs:896-913 | An answer has the ids of its call as 64-bit integers; the value of the host under `mr` and no `me`, its secrets encrypted; or an error with the text under `me` and no `mr` |
| HostCalls.KeyReplySays | src/runspace/pool.rs:465-507 | The key is read from the first object with a text under `EncryptedSessionKey` |
| HostCalls.SessionKeySays | src/runspace/pool.rs:465-507 | The session key is what the pair of the awaited exchange makes of the base64 under `EncryptedSessionKey` |
| PoolRuns.EveryRunIsSound | src/runspace/pool.rs:318-739 | After every run of a pool in any world (host, transport, key generation, decoder, bytes), whatever is asked of it: each call that wants an answer, with what the host made of it, is settled by one answer, parked once or lost once; no more are lost than things went wrong outside, and none if no message failed; host responses on the wire are the answers, in order; each value went out under the key held at that moment, a secret never without one; key and awaited pair are what the deeds make of them; every key message was dealt with, in order, and those requests granted that did not fail; messages came in wire order and readers got all that is theirs; ids increase, one spent for each try |
| PoolRuns.EveryCallIsAnswered | src/runspace/pool.rs:618-703 | If every send went out and every key generation worked, each non-void call was answered once or is parked once |
| PoolRuns.NothingIsLostSilently | src/runspace/pool.rs:618-703 | If no message failed, each non-void call was answered once or is parked once, whatever went wrong outside |
| PoolRuns.AnswersOnTheWire | src/runspace/pool.rs:618-703 | The i-th host response on the wire answers a call that was read: to its pipeline, in kind, under its ids, with what the host made of that very call, a value as it is or with its secrets encrypted under the key held at that moment, an error with its text |
| PoolRuns.AnswerTimely | src/runspace/pool.rs:683-703 | That key is the one held when the answer went out |
| PoolRuns.ExchangeSays | src/runspace/pool.rs:404-414 | An exchange sends the public half of a fresh pair under `PublicKey` to the pool, and nothing else |
| PoolRuns.NextFlushes | src/runspace/pool.rs:564-570 | A read that succeeds leaves nothing parked that could have been sent |
| PoolRuns.FlushInOrder | src/runspace/pool.rs:509-521 | Parked answers go out in the order in which they were parked |
| PoolRuns.DrainedIsCompleted | src/runspace/pool.rs:592-604 | A drained transport is taken for a state message of this pool and no pipeline, with the text of completion |
| PoolRuns.AttemptKeeps | src/runspace/pool.rs:550-562 | A message tried spends an id; ids increase, messages sent and messages refused add up to those tried |
| PoolRuns.RespondKeeps | src/runspace/pool.rs:705-739 | An answer that goes out settles its debt; one that does not is a mishap more |
| PoolRuns.ExchangeKeeps | src/runspace/pool.rs:404-436 | An exchange starts only when none is under way, and afterwards one is, unless the key generation or the send failed |
| PoolRuns.FlushKeeps | src/runspace/pool.rs:509-521 | Parked answers leave, oldest first, only when sent under the key held; up to a failing send all of them do |
| PoolRuns.GiveUpKeeps | src/runspace/pool.rs:524-535 | Every parked debt is settled with an error or lost to a refused send; none stays |
| PoolRuns.AcceptKeyKeeps | src/runspace/pool.rs:465-507 | The pair is used once; a usable reply gives the key and the parked answers go out under it, an unusable one leaves none parked |
| PoolRuns.ParkKeeps | src/runspace/pool.rs:683-698 | A secret without a key is parked with an exchange under way, or lost if none could be started |
| PoolRuns.DealKeeps | src/runspace/pool.rs:572-590 | One message, dealt with as its type asks: the debts grow by what the host made of it, a key message is heard, the books stay balanced |
| PoolRuns.DealReasoned | src/runspace/pool.rs:572-590 | A message fails only because its call cannot be read, its reply holds no key, or something went wrong outside; one that does not fail loses nothing |
| PoolRuns.NextOfPlain | src/runspace/pool.rs:564-616 | Of plain messages the next one is returned, none skipped, and nothing is sent |
| Inbox.FailuresAreMissing | src/runspace/pool.rs:572-590 | The messages left out are as many as the failures; without one nothing is left out |
| Inbox.ArrivalsAreDecoded | src/runspace/pool.rs:605-614 | What arrived is what the chunks fed decode to, an unreadable chunk adding nothing; if all can be read, it is the messages of all the payloads that `feed` completed |
| Pool.RunPool | src/runspace/pool.rs:91-739 | The class, run with any operations, ends where the model says, and that is sound |
| Pool.RunspacePool.constructor | src/runspace/pool.rs:91-115 | A new pool is the beginning of the model |
| Pool.RunspacePool.TakeObjectId | src/runspace/pool.rs:21-27 | Ids count up; the last one is refused rather than reused |
| Pool.RunspacePool.SendMessage | src/runspace/pool.rs:550-562 | One try of the transport, id spent, as the model's `Attempt` |
| Pool.RunspacePool.SendAnswer | src/runspace/pool.rs:705-739 | A host response goes out with the body its answer stands for, and is recorded only then (what that body says is `HostCalls.AnswerSays`) |
| Pool.RunspacePool.SetSessionKey | src/runspace/pool.rs:318-321 | The key is taken and an exchange in flight abandoned, parked answers kept |
| Pool.RunspacePool.StartExchange | src/runspace/pool.rs:404-414 | One `PublicKey` message, then its pair is awaited, as the model's `Exchange` |
| Pool.RunspacePool.StartExchangeUnlessPending | src/runspace/pool.rs:430-436 | Never two exchanges at once |
| Pool.RunspacePool.FlushDeferred | src/runspace/pool.rs:509-521 | The loop computes the model's `Flush`, stopping at the first failing send |
| Pool.RunspacePool.FailDeferred | src/runspace/pool.rs:524-535 | The loop computes the model's `GiveUp`, failing sends included |
| Pool.RunspacePool.AcceptSessionKey | src/runspace/pool.rs:465-507 | Computes the model's `AcceptKey` |
| Pool.RunspacePool.ParkAnswer | src/runspace/pool.rs:683-698 | Computes the model's `Park`: exchange first, then the answer parked, or lost |
| Pool.RunspacePool.HandleHostCall | src/runspace/pool.rs:618-703 | The host is asked once about a readable call; silence, an answer now, a parked one or a loss as the model's `Settle` says |
| Pool.RunspacePool.Dispatch | src/runspace/pool.rs:572-590 | Computes the model's `Deal` for every message type |
| Pool.RunspacePool.TakeNext | src/runspace/pool.rs:570-590 | The oldest queued message is dealt with and handed on unless it is a host call or failed |
| Pool.RunspacePool.QueueChunk | src/runspace/pool.rs:605-614 | A chunk's messages are queued so that they pop in wire order; an unreadable chunk queues nothing |
| Pool.RunspacePool.ReceiveChunk | src/runspace/pool.rs:592-614 | One read: a chunk, a failure, or the end of a drained transport |
| Pool.RunspacePool.NextMessage | src/runspace/pool.rs:564-616 | The loop of `next_message` computes the model's `Next`, state and result, in every case |
| Pool.ReadAll | src/runspace/pool.rs:564-616 | Reading to the end gives every plain message once, in order |
| Messages.MessageRoundTrip | src/message.rs:202-238 | Decoding an encoded message, whatever it is, gives it back under its canonical type and without one leading byte order mark |
| Messages.MessageIdentity | src/message.rs:202-238 | The round trip is the identity exactly for canonical types and bodies with no leading mark |
| WireForm.MessageBytes | src/message.rs:202-212 | The 40 bytes of a message header, field by field, the first three fields of a GUID turned round; then the body |
| WireForm.TypesAsListed | src/message.rs:99-137 | The four bytes of each of the 32 message types |
| Messages.CodeRoundTrip | src/message.rs:99-179 | Every code is a type |
| Messages.TypeRoundTrip | src/message.rs:99-179 | The only types that do not come back are known codes called unknown |
| Pipelines.ForeignMessagesAreIgnored | src/pipeline.rs:402-416 | Of the messages the pool hands on, deleting every one of another pipeline or pool changes neither the outcome nor the signals; a message the pool fails on is a failed read |
| Pipelines.OneStopSignal | src/pipeline.rs:379-402 | At most one stop signal is accepted, and `Cancelled` is returned only after one was |
| Pipelines.DoneIsOrderedConcatenation | src/pipeline.rs:416-472 | Each stream of a finished run is the concatenation, in order, of its own messages up to the first terminal state; by kind of stream |
| Pipelines.RunsEndAsReported | src/pipeline.rs:102-122 | A whole run, in the terms of the wire: it ends at the first event that ends it, code 4 completed, 6 disconnected, 5 failed with the text and the errors so far, 3 stopped or cancelled according to the signal; and each of the seven fields is the concatenation of what the own messages of its one type carried before |
| Pipelines.HowRunsEnd | src/pipeline.rs:379-475 | The same from any point of a run, for every outcome |
| Pipelines.RunAllStreams | src/pipeline.rs:358-475 | The one-shot loop computes the fold, after sending the pipeline once; a refused send or an empty pipeline ends it at once; what the fold returns is `Pipelines.RunsEndAsReported` |
| Pipelines.PipelineHandle.DrainLoop | src/pipeline.rs:603-702 | The other loop computes the same fold, of which `Pipelines.RunsEndAsReported` speaks |
| Pipelines.PipelineHandle.Collect | src/pipeline.rs:564-591 | The end of input is sent once, then the same fold; if the send is refused nothing is read |
| Stack.Deliver | src/runspace/pool.rs:564-616 | Whole stack: messages fragmented, put in base64 data lines with acknowledgements between, cut into any chunks, read by a session whose operations are dropped anywhere, and read out of a pool come back as the first of the list, whole and in order; if nothing cuts the reading short (receives only, one for each data line and one for each drop) they come back as the whole list if and only if the queue has room for the data that any one chunk completes |
| Stack.PayloadsCarryMessages | src/fragment.rs:64-255 | Any first payloads of such packets decode to the first of the messages |
| Stack.LinesCarryData | src/out_of_proc/packet.rs:78-210 | The payloads of a server's lines are those of its data packets, acknowledgements skipped, and no session refuses one of the lines |
| Stack.FewerMessages | src/fragment.rs:118-255 | With any payload missing at the end, fewer messages are read |
| Stack.SequenceInterleaves | src/fragment.rs:85-130 | Sending messages one after the other is an interleaving |
| Stack.EndOrderOfSequence | src/fragment.rs:85-130 | ... whose end fragments stand in the order of the messages |
| Stack.ReceivedUnchanged | src/message.rs:202-238 | Canonical messages with no leading mark are received as they were sent |
| WireForm.DecimalText | src/clixml/encode.rs:67-119 | A decimal text is worth its number, by the weight of each place, with no digit too many |
| WireForm.GuidText | src/out_of_proc/packet.rs:78-105 | A GUID in 8-4-4-4-12 lowercase digits, byte by byte |
| WireForm.Utf8Bits | src/message.rs:202-212 | A character in the bits of RFC 3629 |
| WireForm.CharactersAsListed | src/clixml/decode.rs:289-298 | The white space that is trimmed, the blanks base64 may have, and the byte order mark |
| WireForm.LimitsAsSet | src/clixml/decode.rs:69-96 | The limits of all layers, and the budget of a document of so many bytes |

## Left out

- XML tokenization, GUID parsing beyond the forms the `uuid` crate accepts, AES, RSA, HMAC and UTF-8 validation errors: libraries, modelled by parameters or by their documented behaviour.
- Encoder.Writer.Value: has no `F32` and `Double` values, as floating-point formatting is library code.
- Reader.ClixmlReader.ParseInner: treats the tags `<Sg>` and `<Db>` as unknown, as floating-point parsing is library code.
- The leading whitespace and byte order mark that `parse_clixml` trims before the reader starts: they are no events.
- Error texts, logging, quoting and truncation of remote text.
- `receive_step`, the WinRM and SSH transports, the blocking wrapper, `SharedRunspacePool`, timers as clocks.
- The eight integer variants of `PsValue` are one constructor with a kind; the string-like variants likewise.
- The runspace state machine (`src/runspace/state.rs`), typed record views, metadata, the dispatch of host methods: straight-line code. Messages the pool hands to that machine are only returned here.
- `request_session_key` and `await_session_key`: the wait is a loop around `next_message`; its parts are modelled.
- `disconnect`, `reconnect`, `close` of the pool: a reconnected pool is a new pool value that counts its object ids from 1 again, so ids are unique per pool value.
- Pool.RunspacePool.HandleHostCall: does not model an operation dropped in the middle of a send, where the source makes no exactly-once promise either.
- Hashed known-hosts entries, key files and policies, `parse_inet_aton`.
- Server.HonestServer.React: does not model the fake's check that a creating message names its pipeline, which depends on what the caller sends, nor the contents of the server's own PSRP messages, which may be any small data lines.
- Session.Pipe.Read: a read that is dropped has taken no bytes, as the source's `Pipe` demands of its implementations.
- Reader.ParseClixml: bounds the height of what is returned and the weight of copied objects; type names copied for a `<TNRef>` are not charged by the source and are not bounded here.
- Inlining.ReferencesAreCopies: speaks of documents in which each kind of element holds what belongs there (values in lists, members and entries, entries in dictionaries, names in type-name lists, text in scalars); elsewhere the decoder reads the tags of a copy that it would not read of a reference.
- Stack.Deliver: a host call or a key message in the list would be dealt with by the pool, so the messages are plain ones.
- Pipelines.ForeignMessagesAreIgnored: speaks of the messages the pool hands on; a host call of another pipeline that the pool cannot read fails `next_message`, and so ends the run.
