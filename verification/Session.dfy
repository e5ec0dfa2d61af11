/** The session engine of `src/out_of_proc/session.rs`: one request in flight, dropped anywhere. */
module Session {
  import opened Common
  import opened Text
  import opened Packets
  import opened Server
  import Lines

  const QUEUE_ENTRY_OVERHEAD: nat := 64

  datatype Reason =
    | AbandonedWrite
    | AbandonedPayload
    | TimedOut
    | WriteFailed
    | EndOfStream
    | BadLineReceived
    | ServerReported(message: string)
    | ClientPacketReceived
    | TooMuchQueued

  /** How an operation ends: its future may also be dropped at any `.await`. */
  datatype Outcome = Done | Failed(reason: Reason) | Dropped

  /** What an await on the pipe yields. */
  datatype ReadOutcome = Chunk(bytes: seq<byte>) | Gone | ReadDropped

  function Arrived(r: ReadOutcome): seq<byte> {
    if r.Chunk? then r.bytes else []
  }

  /** All that a peer's reads will bring. */
  function BytesOf(incoming: seq<ReadOutcome>): seq<byte> {
    if incoming == [] then [] else Arrived(incoming[0]) + BytesOf(incoming[1..])
  }

  /** What a read makes of an entry: an empty chunk is none. */
  function Heard(r: ReadOutcome): ReadOutcome {
    if r == Chunk([]) then ReadDropped else r
  }

  /** The next read of a scripted peer, which is dropped where the script says so and where it ends. */
  function NextRead(incoming: seq<ReadOutcome>): ReadOutcome {
    if incoming == [] then ReadDropped else Heard(incoming[0])
  }

  function Rest(incoming: seq<ReadOutcome>): seq<ReadOutcome> {
    if incoming == [] then [] else incoming[1..]
  }

  /** How many of the reads to come are dropped. */
  function Drops(incoming: seq<ReadOutcome>): nat {
    if incoming == [] then 0 else (if Heard(incoming[0]).ReadDropped? then 1 else 0) + Drops(incoming[1..])
  }

  /** The stream does not end. */
  predicate NeverGone(incoming: seq<ReadOutcome>) {
    forall i :: 0 <= i < |incoming| ==> !incoming[i].Gone?
  }

  /** The byte channel: an honest server, or any peer at all (a list of what its reads will bring). */
  class Pipe {
    const server: HonestServer?
    var incoming: seq<ReadOutcome>
    var written: seq<byte>
    /** Every byte handed out by `read` so far, out of all an arbitrary peer will send. */
    ghost var taken: seq<byte>
    /** How many reads were dropped, how many of these for no lack of bytes, and how many writes did not finish. */
    ghost var dropped: nat
    var cuts: nat
    var unfinished: nat
    ghost const all: seq<byte>

    constructor (server: HonestServer?, incoming: seq<ReadOutcome>)
      ensures this.server == server && this.incoming == incoming && written == [] && taken == []
      ensures dropped == 0 && cuts == 0 && unfinished == 0 && all == BytesOf(incoming) && (server == null ==> Valid())
    {
      this.server := server;
      this.incoming := incoming;
      written := [];
      taken, dropped, cuts, unfinished := [], 0, 0, 0;
      all := BytesOf(incoming);
    }

    ghost function Footprint(): set<object> {
      if server == null then {this} else {this, server}
    }

    ghost predicate Valid()
      reads this, server
    {
      && (server != null ==> server.Valid())
      && (server == null ==> taken + BytesOf(incoming) == all)
    }

    /** What is left to read. */
    function Left(): nat
      reads this, server
    {
      if server == null then |incoming| else |server.out|
    }

    /** `write`: all of it, or any part when it fails or is dropped. */
    method Write(bytes: seq<byte>) returns (o: Outcome, ghost n: nat)
      requires Valid()
      modifies Footprint()
      ensures Valid() && incoming == old(incoming) && taken == old(taken) && dropped == old(dropped)
      ensures cuts == old(cuts) && unfinished == old(unfinished) + if o == Done then 0 else 1
      ensures n <= |bytes| && written == old(written) + bytes[..n]
      ensures o == Done ==> n == |bytes|
      ensures o.Failed? ==> o.reason == WriteFailed
      ensures server != null ==>
        && server.read == old(server.read)
        && (old(server.exited) ==> server.exited && server.violations == old(server.violations))
        && (Lines.NEWLINE !in old(server.partial) + bytes[..n] ==>
              server.violations == old(server.violations) && server.exited == old(server.exited))
        && (forall p :: old(server.LegalNow(p, bytes)) && n == |bytes| ==>
              && server.partial == [] && server.violations == old(server.violations)
              && (!server.exited ==> server.Acknowledged(p)))
    {
      hide Wire, ThroughLastAck, Welcome, Packets.ClientBytes, ClientPacket, LineText, OpenAfter, Broken, Acks;
      o := *;
      var k: int := *;
      if o == Done || k < 0 || |bytes| < k {
        k := |bytes|;
      }
      if o.Failed? {
        o := Failed(WriteFailed);
      }
      n := k;
      var part := bytes[..k];
      assert n == |bytes| ==> part == bytes;
      if server != null {
        server.ClientBytes(part);
      }
      if o != Done {
        unfinished := unfinished + 1;
      }
      written := written + part;
    }

    /**
     * `read`: a non-empty chunk, the end of the stream, or the future is dropped waiting, which it may be
     * at any time; the script of an arbitrary peer says where.
     */
    method Read() returns (r: ReadOutcome)
      requires Valid()
      modifies Footprint()
      ensures Valid() && written == old(written)
      ensures taken == old(taken) + Arrived(r) && dropped == old(dropped) + if r.ReadDropped? then 1 else 0
      ensures unfinished == old(unfinished) && old(cuts) <= cuts
      ensures server != null && r.ReadDropped? && cuts == old(cuts) ==> old(server.out) == [] && !server.exited
      ensures server != null && r.Gone? ==> server.exited
      ensures server == null ==> r == NextRead(old(incoming)) && incoming == Rest(old(incoming))
      ensures r.Chunk? ==> r.bytes != []
      ensures r.Chunk? ==> Left() < old(Left())
      ensures Left() <= old(Left())
      ensures server != null ==>
        && server.violations == old(server.violations) && server.open == old(server.open)
        && server.exited == old(server.exited) && server.sent == old(server.sent)
        && server.partial == old(server.partial)
        && old(server.out) == Arrived(r) + server.out
    {
      hide Wire, ThroughLastAck, Welcome;
      if server != null {
        var cut: bool := *;
        if cut {
          cuts := cuts + 1;
        }
        if cut || (server.out == [] && !server.exited) {
          dropped := dropped + 1;
          return ReadDropped;
        }
        if server.out == [] {
          return Gone;
        }
        var n: int := *;
        if n <= 0 || |server.out| < n {
          n := 1;
        }
        var bytes := server.Take(n);
        taken := taken + bytes;
        return Chunk(bytes);
      }
      r := NextRead(incoming);
      if r.ReadDropped? {
        dropped := dropped + 1;
      }
      if incoming != [] {
        taken := taken + Arrived(r);
        assert old(taken) + (Arrived(r) + BytesOf(incoming[1..])) == taken + BytesOf(incoming[1..]);
        incoming := incoming[1..];
      }
    }
  }

  // ---- What a run leaves behind ----

  function QueueCost(payload: seq<byte>): nat {
    |payload| + QUEUE_ENTRY_OVERHEAD
  }

  function TotalCost(q: seq<seq<byte>>): nat {
    if q == [] then 0 else QueueCost(q[0]) + TotalCost(q[1..])
  }

  lemma {:induction false} TotalCostAppend(a: seq<seq<byte>>, b: seq<seq<byte>>)
    ensures TotalCost(a + b) == TotalCost(a) + TotalCost(b)
  {
    if a == [] {
      assert a + b == b;
    } else {
      assert (a + b)[1..] == a[1..] + b;
      TotalCostAppend(a[1..], b);
    }
  }

  lemma TotalCostPrefix(a: seq<seq<byte>>, b: seq<seq<byte>>)
    requires a <= b
    ensures TotalCost(a) <= TotalCost(b)
  {
    TotalCostAppend(a, b[|a|..]);
    assert a + b[|a|..] == b;
  }

  /** The client lines of a list of packets. */
  function ClientWire(ps: seq<Packet>): seq<byte> {
    if ps == [] then [] else ClientWire(ps[..|ps| - 1]) + ClientBytes(ps[|ps| - 1])
  }

  /** Whole request lines, then at most one line cut short. */
  ghost predicate WholeLinesThenTorn(written: seq<byte>, log: seq<Packet>, torn: seq<byte>) {
    && written == ClientWire(log) + torn
    && (forall p :: p in log ==> IsRequest(p) && Sendable(p))
    && (torn != [] ==>
          exists p :: IsRequest(p) && Sendable(p) && |torn| < |ClientBytes(p)| && torn == ClientBytes(p)[..|torn|])
  }

  /** The payload bytes that whole `Data` lines carried to `guid`. */
  function DataOn(log: seq<Packet>, guid: Guid): seq<byte> {
    if log == [] then []
    else
      var last := log[|log| - 1];
      DataOn(log[..|log| - 1], guid) + (if last.Data? && last.guid == guid then last.payload else [])
  }

  /** One call of `send` that reached its payload, and how much of it went out in whole lines. */
  datatype Sent = Sent(guid: Guid, payload: seq<byte>, out: nat)

  predicate Whole(s: Sent) {
    s.out == 0 || s.out == |s.payload|
  }

  function DeliveredOn(sends: seq<Sent>, guid: Guid): seq<byte> {
    if sends == [] then []
    else
      var last := sends[|sends| - 1];
      DeliveredOn(sends[..|sends| - 1], guid)
      + (if last.guid == guid && last.out <= |last.payload| then last.payload[..last.out] else [])
  }

  /** The payloads of the lines before the first the session refuses. */
  function Payloads(tokenize: Tokenizer, lines: seq<string>): seq<seq<byte>> {
    if lines == [] then []
    else match ParseLine(tokenize, lines[0])
         case Err(_) => []
         case Ok(None) => Payloads(tokenize, lines[1..])
         case Ok(Some(p)) =>
           if p.Data? then [p.payload] + Payloads(tokenize, lines[1..])
           else if IsAck(p) then Payloads(tokenize, lines[1..])
           else []
  }

  predicate Acceptable(tokenize: Tokenizer, line: string) {
    match ParseLine(tokenize, line)
    case Err(_) => false
    case Ok(None) => true
    case Ok(Some(p)) => p.Data? || IsAck(p)
  }

  predicate AllAcceptable(tokenize: Tokenizer, lines: seq<string>) {
    forall i :: 0 <= i < |lines| ==> Acceptable(tokenize, lines[i])
  }

  /** The payloads in all that a peer has sent. */
  ghost function PayloadsAfter(tokenize: Tokenizer, bytes: seq<byte>): seq<seq<byte>> {
    Payloads(tokenize, Lines.Push(Lines.Splitter([], false), bytes).lines)
  }

  /** Bytes in whole lines that no session refuses. */
  ghost predicate Harmless(tokenize: Tokenizer, bytes: seq<byte>) {
    var p := Lines.Push(Lines.Splitter([], false), bytes);
    p.error.None? && AllAcceptable(tokenize, p.lines)
  }

  /** The payloads that a chunk completes. */
  ghost function Newly(tokenize: Tokenizer, received: seq<byte>, chunk: seq<byte>): seq<seq<byte>> {
    PayloadsGrow(tokenize, received, chunk);
    PayloadsAfter(tokenize, received + chunk)[|PayloadsAfter(tokenize, received)|..]
  }

  /** The payloads that any one chunk completes fit in an empty queue. */
  ghost predicate Roomy(tokenize: Tokenizer, received: seq<byte>, incoming: seq<ReadOutcome>, limit: nat)
    decreases |incoming|
  {
    incoming == []
    || (TotalCost(Newly(tokenize, received, Arrived(incoming[0]))) <= limit
        && Roomy(tokenize, received + Arrived(incoming[0]), incoming[1..], limit))
  }

  lemma {:induction false} PayloadsAppend(tokenize: Tokenizer, a: seq<string>, b: seq<string>)
    ensures AllAcceptable(tokenize, a) ==>
      Payloads(tokenize, a + b) == Payloads(tokenize, a) + Payloads(tokenize, b)
    ensures Payloads(tokenize, a) <= Payloads(tokenize, a + b)
  {
    hide ParseLine;
    if a == [] {
      assert a + b == b;
    } else {
      assert (a + b)[1..] == a[1..] + b;
      PayloadsAppend(tokenize, a[1..], b);
      assert AllAcceptable(tokenize, a) ==> Acceptable(tokenize, a[0]) && AllAcceptable(tokenize, a[1..]);
    }
  }

  /** More bytes can only add payloads at the end. */
  lemma PayloadsGrow(tokenize: Tokenizer, a: seq<byte>, b: seq<byte>)
    ensures PayloadsAfter(tokenize, a) <= PayloadsAfter(tokenize, a + b)
  {
    hide Lines.Push, Payloads, AllAcceptable;
    var st := Lines.Splitter([], false);
    Lines.PushSplit(st, a, b);
    var x := Lines.Push(st, a);
    if x.error.None? {
      PayloadsAppend(tokenize, x.lines, Lines.Push(x.splitter, b).lines);
    }
  }

  lemma AcceptableParts(tokenize: Tokenizer, a: seq<string>, b: seq<string>)
    requires AllAcceptable(tokenize, a + b)
    ensures AllAcceptable(tokenize, a) && AllAcceptable(tokenize, b)
  {
    hide Acceptable;
    forall i | 0 <= i < |a| ensures Acceptable(tokenize, a[i]) {
      assert (a + b)[i] == a[i];
    }
    forall i | 0 <= i < |b| ensures Acceptable(tokenize, b[i]) {
      assert (a + b)[|a| + i] == b[i];
    }
  }

  /** What breaks nothing breaks nothing when it is cut short. */
  lemma HarmlessPrefix(tokenize: Tokenizer, a: seq<byte>, b: seq<byte>)
    requires Harmless(tokenize, a + b)
    ensures Harmless(tokenize, a)
  {
    hide AllAcceptable, Lines.Push;
    var st := Lines.Splitter([], false);
    Lines.PushSplit(st, a, b);
    var x := Lines.Push(st, a);
    AcceptableParts(tokenize, x.lines, Lines.Push(x.splitter, b).lines);
  }

  /** A stream with an overfull chunk ahead has payloads ahead. */
  lemma {:induction false} OverfullIsAhead(tokenize: Tokenizer, received: seq<byte>, incoming: seq<ReadOutcome>,
                                           limit: nat)
    requires !Roomy(tokenize, received, incoming, limit)
    ensures |PayloadsAfter(tokenize, received)| < |PayloadsAfter(tokenize, received + BytesOf(incoming))|
    decreases |incoming|
  {
    hide PayloadsAfter, TotalCost;
    var chunk, rest := Arrived(incoming[0]), BytesOf(incoming[1..]);
    PayloadsGrow(tokenize, received, chunk);
    PayloadsGrow(tokenize, received + chunk, rest);
    Regroup(received, chunk, rest);
    if TotalCost(Newly(tokenize, received, chunk)) > limit {
      NothingCosts();
      assert Newly(tokenize, received, chunk) != [];
    } else {
      OverfullIsAhead(tokenize, received + chunk, incoming[1..], limit);
    }
  }

  lemma NothingCosts()
    ensures TotalCost([]) == 0
  {
  }

  /** A queue with room for the whole stream has room for every chunk. */
  lemma {:induction false} RoomForAll(tokenize: Tokenizer, received: seq<byte>, incoming: seq<ReadOutcome>, limit: nat)
    requires TotalCost(PayloadsAfter(tokenize, received + BytesOf(incoming))) <= limit
    ensures Roomy(tokenize, received, incoming, limit)
    decreases |incoming|
  {
    hide PayloadsAfter, TotalCost;
    if incoming != [] {
      var chunk, rest := Arrived(incoming[0]), BytesOf(incoming[1..]);
      PayloadsGrow(tokenize, received, chunk);
      PayloadsGrow(tokenize, received + chunk, rest);
      Regroup(received, chunk, rest);
      var now := PayloadsAfter(tokenize, received + chunk);
      TotalCostPrefix(now, PayloadsAfter(tokenize, received + BytesOf(incoming)));
      TotalCostAppend(PayloadsAfter(tokenize, received), Newly(tokenize, received, chunk));
      assert now == PayloadsAfter(tokenize, received) + Newly(tokenize, received, chunk);
      RoomForAll(tokenize, received + chunk, incoming[1..], limit);
    }
  }

  // ---- Client and server agree ----

  function OpenSet(openCommand: Option<Guid>): set<Guid> {
    if openCommand.Some? then {openCommand.value} else {}
  }

  /** What `acknowledged` makes of the open command. */
  function AfterAck(ack: Packet, openCommand: Option<Guid>): Option<Guid> {
    if ack.CommandAck? then Some(ack.guid)
    else if ack.CloseAck? && openCommand == Some(ack.guid) then None
    else openCommand
  }

  /** A request the session may make in this command state. */
  predicate Allowed(p: Packet, openCommand: Option<Guid>) {
    if p.Data? then p.payload != [] && |p.payload| <= MAX_DATA_PAYLOAD && (p.guid == NIL || openCommand == Some(p.guid))
    else if p.Command? then p.guid != NIL && openCommand.None?
    else if p.Signal? then p.guid != NIL && openCommand == Some(p.guid)
    else if p.Close? then if p.guid == NIL then openCommand.None? else openCommand == Some(p.guid)
    else false
  }

  /**
   * What the client believes against what the server has queued for it (`ahead`) and has open:
   * with no acknowledgement awaited none is on its way and the command states agree; else exactly
   * the awaited one is on its way, and the server is one request further.
   */
  ghost predicate Agree(ahead: seq<Packet>, open: set<Guid>, awaiting: Option<Packet>, openCommand: Option<Guid>) {
    match awaiting
    case None => Acks(ahead) == [] && open == OpenSet(openCommand)
    case Some(ack) =>
      && Acks(ahead) == [ack]
      && exists p :: Allowed(p, openCommand) && ack == AckOf(p) && open == OpenAfter(p, OpenSet(openCommand))
  }

  lemma AckOfAllowed(p: Packet, openCommand: Option<Guid>)
    requires Allowed(p, openCommand)
    ensures OpenAfter(p, OpenSet(openCommand)) == OpenSet(AfterAck(AckOf(p), openCommand))
    ensures IsAck(AckOf(p)) && IsRequest(p) && Broken(p, OpenSet(openCommand)).None?
    ensures AfterAck(AckOf(p), openCommand) != Some(NIL) || openCommand == Some(NIL)
  {
  }

  /** Hearing the next packet keeps the agreement; the only acknowledgement there is the awaited one. */
  lemma AgreeHears(ahead: seq<Packet>, open: set<Guid>, awaiting: Option<Packet>, openCommand: Option<Guid>)
    requires ahead != [] && Agree(ahead, open, awaiting, openCommand)
    ensures !IsAck(ahead[0]) ==> Agree(ahead[1..], open, awaiting, openCommand)
    ensures IsAck(ahead[0]) ==>
      awaiting == Some(ahead[0]) && Agree(ahead[1..], open, None, AfterAck(ahead[0], openCommand))
  {
    AcksAppend(ahead[..1], ahead[1..]);
    assert ahead == ahead[..1] + ahead[1..];
    assert ahead[..1][..0] == [];
    assert Acks(ahead) == (if IsAck(ahead[0]) then [ahead[0]] else []) + Acks(ahead[1..]);
    if IsAck(ahead[0]) {
      assert Acks(ahead)[0] == ahead[0] && Acks(ahead)[1..] == Acks(ahead[1..]);
      assert awaiting.Some?;
      var p :| Allowed(p, openCommand) && awaiting.value == AckOf(p) && open == OpenAfter(p, OpenSet(openCommand));
      AckOfAllowed(p, openCommand);
    }
  }
}
