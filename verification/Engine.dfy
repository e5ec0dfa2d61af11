/** `OutOfProcSession`: its operations, each of which may fail or be dropped at any await. */
module Engine {
  import opened Common
  import opened Text
  import opened Packets
  import opened Server
  import opened Session
  import Lines

  datatype RecvOutcome = Payload(bytes: seq<byte>) | RecvFailed(reason: Reason) | RecvDropped

  /** The queue, and its accounting: handed out, then queued, is all that was accepted, in order. */
  ghost predicate QueueFacts(inbound: seq<seq<byte>>, cost: nat, limit: nat,
                             returned: seq<seq<byte>>, accepted: seq<seq<byte>>)
  {
    && cost == TotalCost(inbound) <= limit
    && (forall p :: p in inbound ==> p != [])
    && returned + inbound == accepted
  }

  /** What was accepted depends only on the bytes read, not on how they were cut. */
  ghost predicate HearFacts(tokenize: Tokenizer, received: seq<byte>, accepted: seq<seq<byte>>,
                            splitter: Lines.Splitter, alive: bool)
  {
    var p := Lines.Push(Lines.Splitter([], false), received);
    && Lines.Partial(splitter.buf)
    && accepted <= Payloads(tokenize, p.lines)
    && (alive ==>
          && p.error.None? && p.splitter == splitter
          && AllAcceptable(tokenize, p.lines)
          && accepted == Payloads(tokenize, p.lines))
  }

  /** What an honest server has sent and the client not heard is what is buffered and on its stdout. */
  ghost predicate SyncedFacts(partial: seq<byte>, sent: seq<Packet>, heard: nat, buffered: seq<byte>, out: seq<byte>,
                              open: set<Guid>, awaiting: Option<Packet>, openCommand: Option<Guid>)
  {
    && partial == [] && heard <= |sent|
    && buffered + out == Wire(sent[heard..])
    && Agree(sent[heard..], open, awaiting, openCommand)
  }

  /** Every send went out whole or not at all; only the last may be cut, if `cut` says so. */
  ghost predicate SendsFacts(log: seq<Packet>, sends: seq<Sent>, cut: bool) {
    && (forall g: Guid :: DataOn(log, g) == DeliveredOn(sends, g))
    && (forall i :: 0 <= i < |sends| ==> sends[i].out <= |sends[i].payload|)
    && (forall i :: 0 <= i < |sends| - 1 ==> Whole(sends[i]))
    && (sends != [] ==> Whole(sends[|sends| - 1]) || cut)
  }

  lemma QueuePop(inbound: seq<seq<byte>>, cost: nat, limit: nat, returned: seq<seq<byte>>, accepted: seq<seq<byte>>)
    requires QueueFacts(inbound, cost, limit, returned, accepted) && inbound != []
    ensures inbound[0] != [] && QueueCost(inbound[0]) <= cost
    ensures QueueFacts(inbound[1..], cost - QueueCost(inbound[0]), limit, returned + [inbound[0]], accepted)
  {
    assert inbound[0] in inbound;
    forall p | p in inbound[1..] ensures p != [] {
      assert p in inbound;
    }
    assert returned + inbound == (returned + [inbound[0]]) + inbound[1..];
  }

  lemma HearNow(tokenize: Tokenizer, received: seq<byte>, accepted: seq<seq<byte>>, splitter: Lines.Splitter)
    requires HearFacts(tokenize, received, accepted, splitter, true)
    ensures var p := Lines.Push(Lines.Splitter([], false), received);
      && Lines.Partial(splitter.buf) && p.error.None? && p.splitter == splitter
      && AllAcceptable(tokenize, p.lines) && accepted == Payloads(tokenize, p.lines)
  {
    hide Payloads, AllAcceptable, Lines.Push;
  }

  /** One chunk more: its lines follow the ones before. */
  lemma HearChunk(tokenize: Tokenizer, received: seq<byte>, before: seq<seq<byte>>, was: Lines.Splitter,
                  chunk: seq<byte>, accepted: seq<seq<byte>>, alive: bool)
    requires HearFacts(tokenize, received, before, was, true)
    requires var ls := Lines.Push(Lines.Splitter([], false), received).lines + Lines.Push(was, chunk).lines;
      && accepted <= Payloads(tokenize, ls)
      && (alive ==> Lines.Push(was, chunk).error.None? && AllAcceptable(tokenize, ls)
                    && accepted == Payloads(tokenize, ls))
    ensures HearFacts(tokenize, received + chunk, accepted, Lines.Push(was, chunk).splitter, alive)
  {
    hide Payloads, AllAcceptable, Lines.Push;
    Lines.PushKeepsPartial(was, chunk);
    Lines.PushSplit(Lines.Splitter([], false), received, chunk);
  }

  lemma HearFactsDying(tokenize: Tokenizer, received: seq<byte>, accepted: seq<seq<byte>>,
                       splitter: Lines.Splitter, alive: bool)
    requires HearFacts(tokenize, received, accepted, splitter, alive)
    ensures HearFacts(tokenize, received, accepted, splitter, false)
  {
  }

  class OutOfProcSession {
    const tokenize: Tokenizer
    /** `MAX_QUEUED_BYTES`, 64 MiB except where a test lowers it. */
    const maxQueued: nat
    const pipe: Pipe
    const lines: Lines.LineSplitter
    var inbound: seq<seq<byte>>
    var inboundBytes: nat
    var awaiting: Option<Packet>
    var writeInProgress: bool
    var payloadInProgress: bool
    var openCommand: Option<Guid>
    var broken: Option<Reason>
    /** The requests whose whole line was written, and the bytes of an unfinished one. */
    ghost var log: seq<Packet>
    ghost var torn: seq<byte>
    /** The sends that reached their payload. */
    ghost var sends: seq<Sent>
    /** The bytes read, the payloads accepted from them, and those handed out. */
    ghost var received: seq<byte>
    ghost var accepted: seq<seq<byte>>
    ghost var returned: seq<seq<byte>>
    /** How many of an honest server's packets were heard. */
    ghost var heard: nat

    ghost function Repr(): set<object> {
      {this, lines} + pipe.Footprint()
    }

    ghost predicate QueueOk()
      reads this
    {
      QueueFacts(inbound, inboundBytes, maxQueued, returned, accepted)
    }

    /** What was written is whole request lines, then at most one torn line after which nothing follows. */
    ghost predicate WireOk(dying: bool)
      reads this, pipe
    {
      && WholeLinesThenTorn(pipe.written, log, torn)
      && (torn != [] ==> writeInProgress || broken.Some? || dying)
      && (writeInProgress ==> awaiting.Some?)
      && openCommand != Some(NIL) && awaiting != Some(CommandAck(NIL))
    }

    ghost predicate HearOk(dying: bool)
      reads this, lines
    {
      HearFacts(tokenize, received, accepted, lines.Abstract(), broken.None? && !dying)
    }

    /** With an honest server, up to a chunk taken off the pipe and not processed yet. */
    ghost predicate Synced(chunk: seq<byte>)
      requires pipe.server != null
      reads this, lines, pipe.server
    {
      var s := pipe.server;
      SyncedFacts(s.partial, s.sent, heard, lines.buf + chunk, s.out, s.open, awaiting, openCommand)
    }

    ghost predicate HonestOk(chunk: seq<byte>, dying: bool)
      reads this, lines, pipe, pipe.server
    {
      pipe.server != null ==>
        var s := pipe.server;
        && s.tokenize == tokenize && Faithful(tokenize) && s.violations == []
        && (s.exited || broken.Some? || dying || writeInProgress || Synced(chunk))
    }

    ghost predicate Inv(chunk: seq<byte>, dying: bool)
      reads this, lines, pipe, pipe.server
    {
      && pipe.Valid() && received + chunk == pipe.taken
      && QueueOk() && WireOk(dying) && HearOk(dying) && HonestOk(chunk, dying)
    }

    ghost predicate SendsOk()
      reads this
    {
      SendsFacts(log, sends, payloadInProgress || broken.Some?)
    }

    ghost predicate Valid()
      reads this, lines, pipe, pipe.server
    {
      Inv([], false) && SendsOk()
    }

    /** Nothing will ever be written again. */
    ghost predicate Dead()
      reads this
    {
      broken.Some? || writeInProgress || payloadInProgress
    }

    /** An arbitrary peer whose bytes break nothing and whose stream does not end, and nothing is broken yet. */
    ghost predicate Smooth()
      reads this, pipe
    {
      && pipe.server == null && !Dead() && NeverGone(pipe.incoming)
      && Harmless(tokenize, pipe.all)
    }

    /** Each chunk to come fits in the queue when it is empty. */
    ghost predicate Room()
      reads this, pipe
    {
      Roomy(tokenize, received, pipe.incoming, maxQueued)
    }

    /** The session broke before it took every payload of the peer. */
    ghost predicate Short()
      reads this
    {
      broken.Some? && |accepted| < |PayloadsAfter(tokenize, pipe.all)|
    }

    /** One payload more was returned, or one of the drops to come is past, or nothing is left to come. */
    twostate predicate Advanced()
      reads this, pipe
    {
      var before, left := Drops(old(pipe.incoming)), Drops(pipe.incoming);
      && left <= before
      && (|old(returned)| + left < |returned| + before || (inbound == [] && pipe.incoming == []))
    }

    /** An honest server that has not left. */
    ghost predicate Live()
      reads pipe.server
    {
      pipe.server != null && !pipe.server.exited
    }

    /** Mishaps are only counted up, and a server that left does not come back. */
    twostate predicate Onward()
      reads pipe, pipe.server
    {
      && old(pipe.cuts) <= pipe.cuts && old(pipe.unfinished) <= pipe.unfinished
      && (pipe.server != null && old(pipe.server.exited) ==> pipe.server.exited)
    }

    /** Nothing came in between: no read cut, no write unfinished, an honest server still there. */
    twostate predicate Undisturbed()
      reads pipe, pipe.server
    {
      Live() && pipe.cuts == old(pipe.cuts) && pipe.unfinished == old(pipe.unfinished)
    }

    /** It ended well, unless the queue overflowed. */
    ghost predicate Fine(o: Outcome)
      reads this
    {
      && !writeInProgress
      && ((o == Done && broken.None?) || (o == Failed(TooMuchQueued) && broken == Some(TooMuchQueued)))
    }

    /** A session that nothing but its own queue has broken. */
    ghost predicate Sane()
      reads this
    {
      if broken.None? then !writeInProgress && !payloadInProgress else broken == Some(TooMuchQueued)
    }

    /** Nothing was written; the first reason sticks. */
    twostate predicate Quiet()
      reads this, pipe
    {
      && pipe.written == old(pipe.written) && log == old(log) && torn == old(torn) && sends == old(sends)
      && returned == old(returned)
      && writeInProgress == old(writeInProgress) && payloadInProgress == old(payloadInProgress)
      && (old(broken.Some?) ==> broken == old(broken))
    }

    /** The command state moved only by reading the awaited acknowledgement. */
    twostate predicate Waited()
      reads this
    {
      || (awaiting == old(awaiting) && openCommand == old(openCommand))
      || (old(awaiting).Some? && awaiting.None? && openCommand == AfterAck(old(awaiting).value, old(openCommand)))
    }

    constructor (tokenize: Tokenizer, pipe: Pipe, maxQueued: nat)
      requires pipe.Valid() && pipe.written == [] && pipe.taken == []
      requires pipe.server != null ==>
        var s := pipe.server;
        && s.tokenize == tokenize && Faithful(tokenize) && s.violations == [] && s.open == {}
        && s.partial == [] && s.out == [] && s.sent == []
      ensures Valid() && this.pipe == pipe && this.tokenize == tokenize && this.maxQueued == maxQueued
      ensures fresh(this) && fresh(lines)
      ensures log == [] && sends == [] && returned == [] && received == [] && !Dead()
    {
      this.tokenize, this.pipe, this.maxQueued := tokenize, pipe, maxQueued;
      lines := new Lines.LineSplitter();
      inbound, inboundBytes, awaiting := [], 0, None;
      writeInProgress, payloadInProgress, openCommand, broken := false, false, None, None;
      log, torn, sends, received, accepted, returned, heard := [], [], [], [], [], [], 0;
      new;
      WireNothing();
      assert Lines.Push(Lines.Splitter([], false), []) == Lines.Pushed([], Lines.Splitter([], false), None);
    }

    /** `fail`: the first reason sticks. */
    method Fail(reason: Reason) returns (o: Outcome)
      requires Inv([], true)
      modifies this`broken
      ensures Inv([], false)
      ensures broken == if old(broken).Some? then old(broken) else Some(reason)
      ensures o == Failed(broken.value)
    {
      hide Agree, Wire, QueueFacts, HearFacts, ClientWire, Faithful, Synced, Pipe.Valid;
      if broken.None? {
        broken := Some(reason);
      }
      o := Failed(broken.value);
    }

    /** `usable`. */
    method Usable() returns (o: Outcome)
      requires Inv([], false)
      modifies this`broken
      ensures Inv([], false) && Quiet()
      ensures o == Done ==> broken.None? && !writeInProgress && unchanged(this)
      ensures o != Done ==> o.Failed? && broken == Some(o.reason)
      ensures old(broken.Some? || writeInProgress) <==> o != Done
    {
      if broken.Some? {
        return Failed(broken.value);
      }
      if writeInProgress {
        o := Expire(AbandonedWrite);
        return;
      }
      o := Done;
    }

    /** `ready`. */
    method Ready() returns (o: Outcome)
      requires Inv([], false)
      modifies this`broken
      ensures Inv([], false) && Quiet()
      ensures o == Done ==> !Dead() && unchanged(this)
      ensures o != Done ==> o.Failed? && broken == Some(o.reason)
      ensures old(Dead()) <==> o != Done
    {
      o := Usable();
      if o == Done && payloadInProgress {
        o := Expire(AbandonedPayload);
      }
    }

    /** `queue`. */
    method Queue(payload: seq<byte>) returns (r: Option<Reason>)
      requires QueueOk() && payload != []
      modifies this`inbound, this`inboundBytes, this`accepted
      ensures QueueOk()
      ensures r.None? ==> inbound == old(inbound) + [payload] && accepted == old(accepted) + [payload]
      ensures r.None? ==> inboundBytes == old(inboundBytes) + QueueCost(payload)
      ensures r.Some? ==> unchanged(this)
      ensures r.Some? <==> old(inboundBytes) + QueueCost(payload) > maxQueued
      ensures r.Some? ==> r == Some(TooMuchQueued)
    {
      var total := inboundBytes + QueueCost(payload);
      if total > maxQueued {
        return Some(TooMuchQueued);
      }
      inboundBytes := total;
      TotalCostAppend(inbound, [payload]);
      assert TotalCost([payload]) == QueueCost(payload) + TotalCost([payload][1..]);
      inbound := inbound + [payload];
      accepted := accepted + [payload];
      return None;
    }

    lemma WithinLimit()
      requires QueueOk()
      ensures inboundBytes <= maxQueued
    {
    }

    /** `on_line`. */
    method OnLine(line: string) returns (r: Option<Reason>)
      requires QueueOk()
      modifies this`inbound, this`inboundBytes, this`accepted, this`awaiting, this`openCommand
      ensures QueueOk()
      ensures !Acceptable(tokenize, line) ==> r.Some? && unchanged(this)
      ensures Acceptable(tokenize, line) && r.Some? ==> r == Some(TooMuchQueued)
      ensures Acceptable(tokenize, line) ==>
        match ParseLine(tokenize, line).value
        case None => r.None? && unchanged(this)
        case Some(p) =>
          if p.Data? then
            && awaiting == old(awaiting) && openCommand == old(openCommand)
            && accepted == (if r.None? then old(accepted) + [p.payload] else old(accepted))
            && (r.None? <==> old(inboundBytes) + QueueCost(p.payload) <= maxQueued)
            && (r.None? ==> inboundBytes == old(inboundBytes) + QueueCost(p.payload))
          else
            && r.None? && accepted == old(accepted) && inboundBytes == old(inboundBytes)
            && (if old(awaiting) == Some(p) then awaiting.None? && openCommand == AfterAck(p, old(openCommand))
                else awaiting == old(awaiting) && openCommand == old(openCommand))
    {
      hide ParseElement, Trim, EqIgnoreCase;
      var parsed := ParseLine(tokenize, line);
      match parsed
      case Err(ServerError(m)) => return Some(ServerReported(m));
      case Err(Malformed) => return Some(BadLineReceived);
      case Ok(None) => return None;
      case Ok(Some(p)) =>
        if p.Data? {
          ParsedDataIsNonEmpty(tokenize, line);
          r := Queue(p.payload);
        } else if IsAck(p) {
          if awaiting == Some(p) {
            awaiting := None;
            if p.CommandAck? {
              openCommand := Some(p.guid);
            } else if p.CloseAck? && openCommand == Some(p.guid) {
              openCommand := None;
            }
          }
          return None;
        } else {
          return Some(ClientPacketReceived);
        }
    }

    /** With a live honest server: these are its next lines, and client and server agree about them. */
    ghost predicate Attuned(ls: seq<string>)
      reads this, pipe.server
    {
      pipe.server != null && !pipe.server.exited ==>
        var s := pipe.server;
        && Faithful(tokenize) && (forall p :: p in s.sent ==> Welcome(p))
        && heard + |ls| <= |s.sent| && ls == Texts(s.sent[heard..heard + |ls|])
        && Agree(s.sent[heard..], s.open, awaiting, openCommand)
    }

    lemma AttunedStep(ls: seq<string>)
      requires Attuned(ls) && ls != []
      ensures pipe.server != null && !pipe.server.exited ==>
        var s := pipe.server;
        && Faithful(tokenize) && (forall p :: p in s.sent ==> Welcome(p))
        && heard < |s.sent| && ParseLine(tokenize, ls[0]) == Ok(Some(s.sent[heard]))
        && Acceptable(tokenize, ls[0]) && (s.sent[heard].Data? || IsAck(s.sent[heard]))
        && heard + 1 + |ls[1..]| <= |s.sent| && ls[1..] == Texts(s.sent[heard + 1..heard + 1 + |ls[1..]|])
        && (!IsAck(s.sent[heard]) ==> Agree(s.sent[heard + 1..], s.open, awaiting, openCommand))
        && (IsAck(s.sent[heard]) ==>
              && awaiting == Some(s.sent[heard])
              && Agree(s.sent[heard + 1..], s.open, None, AfterAck(s.sent[heard], openCommand)))
    {
      hide Agree, ParseLine, LineText, Faithful, FitsLine;
      if pipe.server != null && !pipe.server.exited {
        var s := pipe.server;
        HeardLine(tokenize, s.sent, heard, |ls|, 0);
        assert s.sent[heard] in s.sent && Welcome(s.sent[heard]);
        AgreeHears(s.sent[heard..], s.open, awaiting, openCommand);
        assert s.sent[heard..][1..] == s.sent[heard + 1..];
      }
    }

    lemma AttunedAgain(ls: seq<string>)
      requires pipe.server != null && !pipe.server.exited ==>
        var s := pipe.server;
        && Faithful(tokenize) && (forall p :: p in s.sent ==> Welcome(p))
        && heard + |ls| <= |s.sent| && ls == Texts(s.sent[heard..heard + |ls|])
        && Agree(s.sent[heard..], s.open, awaiting, openCommand)
      ensures Attuned(ls)
    {
    }

    /** Between two lines: every payload of the lines so far was accepted. */
    ghost predicate OnLineOk(done: seq<string>)
      reads this
    {
      && StoppedOk(done)
      && AllAcceptable(tokenize, done) && accepted == Payloads(tokenize, done)
    }

    ghost predicate StoppedOk(lines: seq<string>)
      reads this
    {
      && QueueOk() && openCommand != Some(NIL) && awaiting != Some(CommandAck(NIL))
      && accepted <= Payloads(tokenize, lines)
    }

    method HandleLine(line: string, ghost done: seq<string>, ghost rest: seq<string>) returns (r: Option<Reason>)
      requires rest != [] && rest[0] == line
      requires OnLineOk(done) && Attuned(rest)
      modifies this`inbound, this`inboundBytes, this`accepted, this`awaiting, this`openCommand, this`heard
      ensures Waited() && heard <= old(heard) + 1
      ensures StoppedOk(done + rest)
      ensures r.None? ==> OnLineOk(done + [line]) && Attuned(rest[1..]) && heard == old(heard) + 1
      ensures r.None? ==> inboundBytes == old(inboundBytes) + LineCost(tokenize, line)
      ensures Acceptable(tokenize, line) && r.Some? ==>
        && old(inboundBytes) + LineCost(tokenize, line) > maxQueued
        && |accepted| < |Payloads(tokenize, done + rest)|
      ensures Live() && r.Some? ==> r == Some(TooMuchQueued)
    {
      hide Agree, ParseLine, Payloads, AllAcceptable, Acceptable, TotalCost, Attuned, Welcome, LineText;
      AttunedStep(rest);
      AcceptableLine(tokenize, line);
      assert done + rest[..0] == done && done + rest[..1] == done + [line];
      OneMoreLine(tokenize, done, rest, 0);
      ghost var payloads := Payloads(tokenize, done + rest);
      assert OnLineOk(done) && accepted <= payloads;
      OneMoreIsPrefix(tokenize, done, rest);
      CostOfLine(tokenize, line);
      r := OnLine(line);
      if r.None? {
        heard := heard + 1;
        AttunedAgain(rest[1..]);
      }
    }

    /** The loop of `process`: every line, in order, up to the first the session refuses. */
    method HandleLines(ls: seq<string>, ghost before: seq<string>) returns (r: Option<Reason>)
      requires OnLineOk(before) && Attuned(ls)
      modifies this`inbound, this`inboundBytes, this`accepted, this`awaiting, this`openCommand, this`heard
      ensures Waited() && StoppedOk(before + ls)
      ensures r.None? ==> OnLineOk(before + ls) && Attuned([]) && heard == old(heard) + |ls|
      ensures r.None? ==> inboundBytes == old(inboundBytes) + TotalCost(Payloads(tokenize, ls))
      ensures AllAcceptable(tokenize, ls) && r.Some? ==>
        && old(inboundBytes) + TotalCost(Payloads(tokenize, ls)) > maxQueued
        && |accepted| < |Payloads(tokenize, before + ls)|
      ensures Live() && r.Some? ==> r == Some(TooMuchQueued)
    {
      hide Payloads, AllAcceptable, Acceptable, Attuned, QueueOk, TotalCost;
      assert before + ls[..0] == before;
      CostOfNoLines(tokenize);
      WithinLimit();
      assert ls[..0] == [];
      for i := 0 to |ls|
        invariant OnLineOk(before + ls[..i])
        invariant Waited()
        invariant heard == old(heard) + i && Attuned(ls[i..])
        invariant AllAcceptable(tokenize, ls[..i])
        invariant inboundBytes == old(inboundBytes) + TotalCost(Payloads(tokenize, ls[..i]))
        invariant inboundBytes <= maxQueued
      {
        CostOfLines(tokenize, ls, i);
        assert (before + ls[..i]) + [ls[i]] == before + ls[..i + 1];
        assert ls[i..][1..] == ls[i + 1..];
        assert (before + ls[..i]) + ls[i..] == before + ls;
        var stop := HandleLine(ls[i], before + ls[..i], ls[i..]);
        if stop.Some? {
          return stop;
        }
        AcceptableTail(tokenize, before, ls, i);
        WithinLimit();
      }
      assert ls[..|ls|] == ls && ls[|ls|..] == [];
      assert StoppedOk(before + ls[..|ls|]);
      return None;
    }

    /** `process`: every line the chunk completes, in order, then the splitter's error. */
    method Process(chunk: seq<byte>) returns (r: Option<Reason>)
      requires Inv(chunk, false) && broken.None? && !writeInProgress
      modifies this`inbound, this`inboundBytes, this`accepted, this`awaiting, this`openCommand,
               this`received, this`heard, lines
      ensures Inv([], r.Some?) && Waited()
      ensures returned == old(returned) && received == old(received) + chunk
      ensures Harmless(tokenize, received) ==>
        (r.None? <==> old(inboundBytes) + TotalCost(Newly(tokenize, old(received), chunk)) <= maxQueued)
      ensures Harmless(tokenize, received) && r.Some? ==> |accepted| < |PayloadsAfter(tokenize, received)|
      ensures Live() && r.Some? ==> r == Some(TooMuchQueued)
    {
      hide Agree, Wire, HearFacts, ParseLine, Payloads, AllAcceptable, Lines.Push, TotalCost, ClientWire, Faithful,
           Welcome, Harmless, Newly, QueueFacts, WholeLinesThenTorn, Acceptable, Texts, Pipe.Valid;
      ghost var before := Lines.Push(Lines.Splitter([], false), received).lines;
      ghost var was, heardBytes, hadAccepted := lines.Abstract(), received, accepted;
      HearNow(tokenize, received, accepted, was);
      HarmlessChunk(tokenize, received, was, chunk);
      var ls, error := SplitChunk(chunk);
      r := HandleLines(ls, before);
      WithinLimit();
      if r.None? && error.Some? {
        r := Some(BadLineReceived);
      }
      HearChunk(tokenize, heardBytes, hadAccepted, was, chunk, accepted, r.None?);
      NothingAdded(lines.buf);
    }

    /** The splitter's part of `process`: the lines of a live honest server are its next packets. */
    method SplitChunk(chunk: seq<byte>) returns (ls: seq<string>, error: Option<Lines.LineError>)
      requires Inv(chunk, false) && broken.None? && !writeInProgress
      modifies this`received, lines
      ensures received == old(received) + chunk
      ensures Lines.Pushed(ls, lines.Abstract(), error) == Lines.Push(old(lines.Abstract()), chunk)
      ensures Attuned(ls)
      ensures Live() ==>
        var s := pipe.server;
        error.None? && heard + |ls| <= |s.sent| && lines.buf + s.out == Wire(s.sent[heard + |ls|..])
    {
      hide Agree, Wire, QueueFacts, HearFacts, ClientWire, Faithful, Welcome, WholeLinesThenTorn, Lines.Push, LineText,
           Payloads, AllAcceptable;
      HearNow(tokenize, received, accepted, lines.Abstract());
      ghost var k := 0;
      if Live() {
        k := HearRecords(lines.Abstract(), pipe.server.sent, heard, chunk, pipe.server.out);
      }
      ls, error := lines.PushBytes(chunk);
      received := received + chunk;
      AttunedAgain(ls);
    }

    /** The read of `pump`. */
    method ReadChunk() returns (r: ReadOutcome)
      requires Inv([], false)
      modifies pipe.Footprint()
      ensures Inv(Arrived(r), false)
      ensures pipe.written == old(pipe.written) && pipe.Left() <= old(pipe.Left())
      ensures r.Chunk? ==> pipe.Left() < old(pipe.Left())
      ensures pipe.dropped == old(pipe.dropped) + if r.ReadDropped? then 1 else 0
      ensures Onward() && (Live() <==> old(Live()))
      ensures Undisturbed() ==> !r.Gone? && (r.ReadDropped? ==> old(pipe.server.out) == [])
      ensures pipe.server == null ==> r == NextRead(old(pipe.incoming)) && pipe.incoming == Rest(old(pipe.incoming))
      ensures old(Smooth()) ==> Smooth() && !r.Gone? && Harmless(tokenize, received + Arrived(r))
      ensures old(Smooth()) ==>
        |PayloadsAfter(tokenize, received + Arrived(r))| <= |PayloadsAfter(tokenize, pipe.all)|
    {
      hide Agree, Wire, QueueFacts, HearFacts, ClientWire, Faithful, Welcome, ThroughLastAck, Harmless, PayloadsAfter;
      r := pipe.Read();
      if pipe.server == null && Harmless(tokenize, pipe.all) {
        assert received + [] == received && received + Arrived(r) == pipe.taken;
        HarmlessPrefix(tokenize, received + Arrived(r), BytesOf(pipe.incoming));
        PayloadsGrow(tokenize, received + Arrived(r), BytesOf(pipe.incoming));
      }
      if pipe.server != null && r.Chunk? {
        assert lines.buf + [] + old(pipe.server.out) == lines.buf + r.bytes + pipe.server.out;
      }
    }

    /** `pump`: one chunk, and every line it completes. The read is the only await. */
    method Pump() returns (o: Outcome)
      requires Inv([], false)
      modifies Repr()
      ensures Inv([], false) && Quiet() && Waited()
      ensures o == Done ==> broken.None? && !writeInProgress && pipe.Left() < old(pipe.Left())
      ensures o.Failed? ==> broken == Some(o.reason)
      ensures o.Dropped? ==> awaiting == old(awaiting) && openCommand == old(openCommand)
      ensures old(broken.Some? || writeInProgress) ==> o.Failed?
      ensures pipe.Left() <= old(pipe.Left())
      ensures o.Dropped? ==> unchanged(this) && unchanged(lines)
      ensures pipe.dropped == old(pipe.dropped) + if o.Dropped? then 1 else 0
      ensures Onward()
      ensures Undisturbed() && !old(broken.Some? || writeInProgress) ==> (o.Dropped? && old(pipe.server.out) == []) || Fine(o)
      ensures old(Smooth()) && !o.Failed? ==> Smooth() && pipe.incoming == Rest(old(pipe.incoming))
      ensures old(Smooth()) ==> (o.Dropped? <==> NextRead(old(pipe.incoming)).ReadDropped?)
      ensures old(Smooth() && inboundBytes == 0 && Room()) ==> !o.Failed? && Room()
      ensures old(Smooth() && inboundBytes == 0 && !Room()) ==> if o.Failed? then Short() else !Room()
    {
      hide Inv, Harmless, BytesOf, NeverGone, PayloadsAfter, TotalCost, Newly, Roomy;
      o := Usable();
      if o == Done {
        o := PumpOne();
      }
    }

    /** The read of `pump`, and what comes of it, once the session is usable. */
    method PumpOne() returns (o: Outcome)
      requires Inv([], false) && broken.None? && !writeInProgress
      modifies Repr()
      ensures Inv([], false) && Quiet() && Waited()
      ensures o == Done ==> broken.None? && pipe.Left() < old(pipe.Left())
      ensures o.Failed? ==> broken == Some(o.reason)
      ensures pipe.Left() <= old(pipe.Left())
      ensures o.Dropped? ==> unchanged(this) && unchanged(lines)
      ensures pipe.dropped == old(pipe.dropped) + if o.Dropped? then 1 else 0
      ensures Onward()
      ensures Undisturbed() ==> (o.Dropped? && old(pipe.server.out) == []) || Fine(o)
      ensures old(Smooth()) && !o.Failed? ==> Smooth() && pipe.incoming == Rest(old(pipe.incoming))
      ensures old(Smooth()) ==> (o.Dropped? <==> NextRead(old(pipe.incoming)).ReadDropped?)
      ensures old(Smooth() && inboundBytes == 0 && Room()) ==> !o.Failed? && Room()
      ensures old(Smooth() && inboundBytes == 0 && !Room()) ==> if o.Failed? then Short() else !Room()
    {
      hide Inv, Harmless, BytesOf, NeverGone, PayloadsAfter, TotalCost, Newly, Roomy;
      var read := ReadChunk();
      RoomAhead(tokenize, old(received), old(pipe.incoming), maxQueued);
      NothingAdded(received);
      match read
      case ReadDropped => o := Dropped;
      case Gone => o := Expire(EndOfStream);
      case Chunk(bytes) =>
        o := TakeIn(bytes);
    }

    /** What `pump` makes of a chunk: it is processed, and breaks the session if it must. */
    method TakeIn(chunk: seq<byte>) returns (o: Outcome)
      requires Inv(chunk, false) && broken.None? && !writeInProgress
      modifies this`inbound, this`inboundBytes, this`accepted, this`awaiting, this`openCommand,
               this`received, this`heard, this`broken, lines
      ensures Inv([], false) && Waited()
      ensures returned == old(returned) && received == old(received) + chunk
      ensures (o == Done && broken.None?) || (o.Failed? && broken == Some(o.reason))
      ensures Harmless(tokenize, received) ==>
        (o == Done <==> old(inboundBytes) + TotalCost(Newly(tokenize, old(received), chunk)) <= maxQueued)
      ensures Harmless(tokenize, received) && o != Done ==> |accepted| < |PayloadsAfter(tokenize, received)|
      ensures Live() ==> Fine(o)
    {
      hide Inv, Harmless, PayloadsAfter, TotalCost, Newly;
      var stop := Process(chunk);
      if stop.Some? {
        o := Fail(stop.value);
      } else {
        o := Done;
      }
    }

    /** `fail` on a session that had no complaint. */
    method Expire(reason: Reason) returns (o: Outcome)
      requires Inv([], false)
      modifies this`broken
      ensures Inv([], false)
      ensures broken == if old(broken).Some? then old(broken) else Some(reason)
      ensures o == Failed(broken.value)
    {
      hide Agree, Wire, QueueFacts, HearFacts, ClientWire, Faithful, Synced, Pipe.Valid;
      HearFactsDying(tokenize, received, accepted, lines.Abstract(), broken.None?);
      o := Fail(reason);
    }

    /** The sends and their flag are bookkeeping: the invariant does not read them. */
    twostate lemma Bookkeeping()
      requires old(Inv([], false)) && unchanged(lines) && unchanged(pipe)
      requires pipe.server != null ==> unchanged(pipe.server)
      requires unchanged(this`inbound, this`inboundBytes, this`awaiting, this`writeInProgress, this`openCommand,
                         this`broken, this`log, this`torn, this`received, this`accepted, this`returned, this`heard)
      ensures Inv([], false)
    {
      hide Agree, Wire, QueueFacts, HearFacts, ClientWire, Faithful, SyncedFacts;
    }

    twostate predicate Untouched()
      reads this, pipe, lines, pipe.server
    {
      unchanged(this) && unchanged(pipe) && unchanged(lines) && (pipe.server != null ==> unchanged(pipe.server))
    }

    /** `settle`: reads until no acknowledgement is awaited. */
    method Settle() returns (o: Outcome)
      requires Inv([], false)
      modifies Repr()
      ensures Inv([], false) && Quiet() && Waited()
      ensures o == Done ==> awaiting.None?
      ensures o == Done && old(awaiting).Some? ==> broken.None? && !old(writeInProgress)
      ensures o.Failed? ==> broken == Some(o.reason)
      ensures old(awaiting).None? ==> o == Done && Untouched()
      ensures Onward()
      ensures Undisturbed() && !old(broken.Some? || writeInProgress) ==> Fine(o)
    {
      hide Inv;
      while awaiting.Some?
        invariant Inv([], false) && Quiet() && Waited()
        invariant Onward()
        invariant Undisturbed() && !old(broken.Some? || writeInProgress) ==> broken.None? && !writeInProgress
        invariant old(awaiting).None? ==> Untouched()
        invariant awaiting == old(awaiting) || (broken.None? && !writeInProgress)
        decreases pipe.Left()
      {
        AckIsComing();
        o := Pump();
        if o != Done {
          return;
        }
      }
      o := Done;
    }

    /** Whoever awaits an acknowledgement has something to read: the server is never waited for in vain. */
    lemma AckIsComing()
      requires Inv([], false)
      ensures Live() && broken.None? && !writeInProgress && awaiting.Some? ==> pipe.server.out != []
    {
      hide QueueFacts, ClientWire, Faithful, Payloads, Lines.Push, AllAcceptable, WholeLinesThenTorn, Wire, Welcome, Acks;
      if Live() && broken.None? && !writeInProgress && awaiting.Some? {
        var s := pipe.server;
        AcksNone();
        assert s.sent[heard..] != [];
        assert lines.buf + [] == lines.buf;
        WireEndsInNewline(s.sent[heard..]);
        NothingAdded(lines.buf);
      }
    }

    /** The acknowledgement timer, if it is what ended the wait: `timed_out`. */
    method Timer(o: Outcome) returns (r: Outcome)
      requires Inv([], false)
      modifies this`broken
      ensures Inv([], false) && Quiet()
      ensures o != Dropped ==> r == o && unchanged(this)
      ensures r == Dropped ==> unchanged(this)
      ensures r != o ==> r.Failed? && broken == Some(r.reason)
    {
      var elapsed: bool := *;
      if o == Dropped && elapsed {
        r := Expire(TimedOut);
      } else {
        r := o;
      }
    }

    /** `settle_bounded`. */
    method SettleBounded() returns (o: Outcome)
      requires Inv([], false)
      modifies Repr()
      ensures Inv([], false) && Quiet() && Waited()
      ensures o == Done ==> awaiting.None?
      ensures o == Done && old(broken).None? ==> broken.None?
      ensures o.Failed? ==> broken == Some(o.reason)
      ensures Onward()
      ensures Undisturbed() && !old(broken.Some? || writeInProgress) ==> Fine(o)
    {
      hide Inv;
      if awaiting.None? {
        return Done;
      }
      o := Settle();
      o := Timer(o);
    }

    /** A request that the session may make once what it awaits is settled. */
    ghost predicate MayRequest(p: Packet)
      reads this
    {
      if awaiting.None? then Allowed(p, openCommand)
      else p.Data? && p.guid == NIL && p.payload != [] && |p.payload| <= MAX_DATA_PAYLOAD
    }

    /** What a request leaves alone, and how little it writes. */
    twostate predicate Requested(p: Packet)
      reads this, pipe
    {
      && sends == old(sends) && returned == old(returned) && payloadInProgress == old(payloadInProgress)
      && (old(broken.Some?) ==> broken == old(broken))
      && (log == old(log) || log == old(log) + [p])
      && (old(broken.Some? || writeInProgress) ==> pipe.written == old(pipe.written) && log == old(log))
    }

    /** The command state is as it was, or as the acknowledgement of `p` makes it. */
    twostate predicate CommandMoved(p: Packet)
      reads this
    {
      openCommand == old(openCommand) || openCommand == AfterAck(AckOf(p), old(openCommand))
    }

    /** `exchange`. */
    method Exchange(p: Packet) returns (o: Outcome)
      requires Inv([], false) && broken.None? && !writeInProgress && MayRequest(p)
      modifies Repr()
      ensures Inv([], false) && Requested(p)
      ensures o == Done ==> awaiting.None? && broken.None? && !writeInProgress && log == old(log) + [p]
      ensures o == Done && old(awaiting).None? ==> openCommand == AfterAck(AckOf(p), old(openCommand))
      ensures old(awaiting).None? ==> CommandMoved(p)
      ensures o.Failed? ==> broken == Some(o.reason)
      ensures Onward()
      ensures Undisturbed() ==> Fine(o)
    {
      hide Inv, Allowed, AckOf, AfterAck;
      o := Settle();
      if o != Done {
        return;
      }
      AllowedAfterSettling(p, old(awaiting), openCommand);
      o := Transmit(p);
      if o != Done {
        return;
      }
      o := Settle();
    }

    /** The write of `exchange`: `awaiting` and `write_in_progress` are set around it. */
    method Transmit(p: Packet) returns (o: Outcome)
      requires Inv([], false) && broken.None? && awaiting.None? && Allowed(p, openCommand)
      modifies Repr()
      ensures Inv([], false) && Requested(p)
      ensures openCommand == old(openCommand)
      ensures o == Done ==> awaiting == Some(AckOf(p)) && broken.None? && !writeInProgress && log == old(log) + [p]
      ensures o.Failed? ==> broken == Some(o.reason)
      ensures o.Dropped? ==> awaiting == Some(AckOf(p)) && writeInProgress
      ensures Onward() && (Undisturbed() ==> o == Done)
    {
      hide Agree, Wire, Allowed, AckOf, QueueFacts, HearFacts, ClientWire,
        Faithful, Welcome, ThroughLastAck, ClientBytes, HonestServer.LegalNow, Pipe.Valid, SyncedFacts, WholeLinesThenTorn,
        LineText, Acks, OpenAfter, Broken, ClientPacket;
      AckOfAllowedRequest(p, openCommand);
      if pipe.server != null && !pipe.server.exited {
        LegalWhenSynced(p);
      }
      awaiting := Some(AckOf(p));
      writeInProgress := true;
      o := WriteLine(p);
      assert Inv([], false);
      if o != Dropped {
        o := EndWrite(o);
      }
    }

    /** The write returned: the line is out, or the session breaks. */
    method EndWrite(o: Outcome) returns (r: Outcome)
      requires Inv([], false) && writeInProgress && o != Dropped && broken.None?
      requires o == Done ==> torn == [] && (pipe.server != null ==> pipe.server.exited || Synced([]))
      modifies this`writeInProgress, this`broken
      ensures Inv([], false) && !writeInProgress
      ensures o == Done ==> r == Done && broken.None?
      ensures o.Failed? ==> r == o && broken == Some(o.reason)
    {
      hide Agree, Wire, QueueFacts, HearFacts, ClientWire, Faithful, Pipe.Valid, SyncedFacts;
      HearFactsDying(tokenize, received, accepted, lines.Abstract(), true);
      writeInProgress := false;
      r := o;
      if o.Failed? {
        r := Fail(o.reason);
      }
    }

    /** Whatever becomes of the line, the log and the torn bytes account for what was written. */
    method WriteLine(p: Packet) returns (o: Outcome)
      requires pipe.Valid() && WireOk(false) && writeInProgress && awaiting == Some(AckOf(p)) && torn == []
      requires Allowed(p, openCommand)
      requires pipe.server != null ==>
        var s := pipe.server;
        && s.violations == []
        && (s.exited
            || (SyncedFacts(s.partial, s.sent, heard, lines.buf + [], s.out, s.open, None, openCommand)
                && s.LegalNow(p, ClientBytes(p))))
      modifies this`log, this`torn, pipe.Footprint()
      ensures pipe.Valid() && WireOk(false)
      ensures o.Failed? ==> o.reason == WriteFailed
      ensures pipe.taken == old(pipe.taken)
      ensures (log == old(log) + [p] && torn == []) || (o != Done && log == old(log))
      ensures pipe.server != null ==>
        var s := pipe.server;
        && s.violations == []
        && (o == Done ==> s.exited || Synced([]))
      ensures Onward() && pipe.cuts == old(pipe.cuts)
      ensures o != Done ==> pipe.unfinished == old(pipe.unfinished) + 1
    {
      hide Agree, Wire, Allowed, AckOf, ThroughLastAck, Welcome,
        ClientBytes, OpenAfter, Broken, ClientPacket, LineText, Acks, ClientWire, WholeLinesThenTorn;
      ClientBytesCut(p);
      var bytes := ClientBytes(p);
      ghost var n;
      o, n := pipe.Write(bytes);
      AllowedIsRequest(p, openCommand);
      OneMoreRequest(old(pipe.written), log, p, n);
      if n == |bytes| {
        log := log + [p];
      } else {
        torn := bytes[..n];
      }
      if pipe.server != null && !old(pipe.server.exited) {
        assert old(pipe.server.LegalNow(p, bytes));
        assert old(pipe.server.partial) + bytes[..n] == bytes[..n];
        if !pipe.server.exited && n == |bytes| {
          SyncedAgain(p);
        }
      }
    }

    twostate lemma SyncedAgain(p: Packet)
      requires pipe.server != null
      requires heard == old(heard) && lines.buf == old(lines.buf) && openCommand == old(openCommand)
      requires awaiting == Some(AckOf(p)) && Allowed(p, openCommand)
      requires pipe.server.partial == [] && pipe.server.Acknowledged(p)
      requires var s := pipe.server;
        old(SyncedFacts(s.partial, s.sent, heard, lines.buf + [], s.out, s.open, None, openCommand))
      ensures Synced([])
    {
      hide Agree, Wire, Allowed, AckOf, OpenAfter, Acks;
      var s := pipe.server;
      var replies :| Acks(replies) == [AckOf(p)] && s.sent == old(s.sent) + replies
        && s.out == old(s.out) + Wire(replies);
      assert lines.buf + [] == lines.buf;
      SyncedAfterRequest(old(s.sent), heard, replies, lines.buf, old(s.out), old(s.open), p, openCommand);
      assert lines.buf + [] == lines.buf;
    }

    /** In agreement, with nothing awaited, an allowed request is legal for the server. */
    lemma LegalWhenSynced(p: Packet)
      requires pipe.server != null && pipe.Valid() && !pipe.server.exited && Synced([])
      requires awaiting.None? && Allowed(p, openCommand) && Faithful(tokenize) && pipe.server.tokenize == tokenize
      ensures pipe.server.LegalNow(p, ClientBytes(p))
    {
      hide Wire, ThroughLastAck, ClientBytes, LineText, Faithful, ClientPacket, Acks, Welcome;
      var s := pipe.server;
      ClientLineIsPacket(tokenize, p);
      AckOfAllowed(p, openCommand);
      NoAckAfter(s.sent, heard);
      WireAppend(s.sent[..heard], s.sent[heard..]);
      assert s.sent == s.sent[..heard] + s.sent[heard..];
      assert lines.buf + [] == lines.buf;
    }

    /** `request`: within the acknowledgement timeout. */
    method Request(p: Packet) returns (o: Outcome)
      requires Inv([], false) && MayRequest(p)
      modifies Repr()
      ensures Inv([], false) && Requested(p)
      ensures o == Done ==> awaiting.None? && broken.None? && !writeInProgress && log == old(log) + [p]
      ensures o == Done && old(awaiting).None? ==> openCommand == AfterAck(AckOf(p), old(openCommand))
      ensures old(awaiting).None? ==> CommandMoved(p)
      ensures o.Failed? ==> broken == Some(o.reason)
      ensures Onward()
      ensures Undisturbed() && !old(broken.Some? || writeInProgress) ==> Fine(o)
    {
      hide Inv, Allowed, AckOf, AfterAck;
      o := Usable();
      if o != Done {
        return;
      }
      o := Exchange(p);
      o := Timer(o);
    }

    /** What every public operation keeps: a dead session writes nothing, the first reason sticks. */
    twostate predicate Operated()
      reads this, pipe
    {
      && (old(broken.Some?) ==> broken == old(broken))
      && (old(Dead()) ==> Dead() && pipe.written == old(pipe.written) && log == old(log) && sends == old(sends))
    }

    /** Between requests everything written is whole lines. */
    lemma AllOut()
      requires Inv([], false) && broken.None? && !writeInProgress
      ensures pipe.written == ClientWire(log)
    {
      hide Wire, Agree, QueueFacts, HearFacts, ClientWire, Faithful, SyncedFacts;
    }

    lemma CommandState()
      requires Inv([], false)
      ensures openCommand != Some(NIL) && (writeInProgress ==> awaiting.Some?)
    {
    }

    /** A request that carries no data, with nothing awaited: it cuts no send. */
    method Control(p: Packet) returns (o: Outcome)
      requires Inv([], false) && SendsFacts(log, sends, false) && !payloadInProgress
      requires awaiting.None? && Allowed(p, openCommand) && !p.Data?
      modifies Repr()
      ensures Inv([], false) && SendsFacts(log, sends, false) && !payloadInProgress
      ensures sends == old(sends) && returned == old(returned)
      ensures old(broken.Some?) ==> broken == old(broken)
      ensures o == Done ==>
        awaiting.None? && broken.None? && openCommand == AfterAck(AckOf(p), old(openCommand)) && log == old(log) + [p]
      ensures CommandMoved(p) && (log == old(log) || log == old(log) + [p])
      ensures o.Failed? ==> broken == Some(o.reason)
      ensures Onward()
      ensures Undisturbed() && !old(broken.Some? || writeInProgress) ==> Fine(o)
    {
      hide Inv, SendsFacts, Allowed, AckOf, AfterAck;
      NoDataSent(log, p, sends);
      o := Request(p);
    }

    /** The part of `send` that opens the pipeline's command, closing another one first. */
    method OpenCommand(guid: Guid) returns (o: Outcome)
      requires Inv([], false) && SendsFacts(log, sends, false) && !Dead() && guid != NIL
      modifies Repr()
      ensures Inv([], false) && SendsFacts(log, sends, false)
      ensures sends == old(sends) && returned == old(returned) && !payloadInProgress
      ensures o == Done ==> awaiting.None? && broken.None? && openCommand == Some(guid)
      ensures o == Done ==> Opens(guid, old(pipe.written), pipe.written)
      ensures o.Failed? ==> broken == Some(o.reason)
      ensures Onward() && (Undisturbed() ==> Fine(o))
    {
      hide Inv, SendsFacts, Opens, ClientWire, Utf8;
      o := SettleBounded();
      if o != Done || openCommand == Some(guid) {
        StaysOpen(guid, pipe.written);
        return;
      }
      CommandState();
      AllOut();
      if openCommand.Some? {
        var other := openCommand.value;
        o := Control(Close(other));
        if o != Done {
          return;
        }
        CommandState();
      }
      o := Control(Command(guid));
      if o == Done {
        CommandState();
        AllOut();
        OpensBy(old(log), log, guid, old(pipe.written), pipe.written);
      }
    }

    /** `send`. */
    method Send(guid: Guid, payload: seq<byte>) returns (o: Outcome)
      requires Valid()
      modifies Repr()
      ensures Valid() && Operated() && returned == old(returned)
      ensures o.Failed? ==> broken == Some(o.reason)
      ensures old(Dead()) && payload != [] ==> o.Failed?
      ensures o == Done && payload != [] ==>
        awaiting.None? && !Dead() && sends == old(sends) + [Sent(guid, payload, |payload|)]
      ensures sends == old(sends) || exists n :: sends == old(sends) + [Sent(guid, payload, n)]
      ensures o.Dropped? && sends != old(sends) && |payload| > MAX_DATA_PAYLOAD ==> payloadInProgress
      ensures payload == [] ==> o == Done && Untouched()
      ensures o == Done && payload != [] ==> Delivers(guid, payload, old(pipe.written), pipe.written)
      ensures Onward()
      ensures old(Sane()) && Undisturbed() ==> Sane() && (o == Done || o == Failed(TooMuchQueued))
    {
      hide Inv, SendsFacts, Delivers, Opens, DataLines;
      if payload == [] {
        return Done;
      }
      o := Ready();
      if o != Done {
        SendsFactsCut(log, sends, old(payloadInProgress || broken.Some?), payloadInProgress || broken.Some?);
        return;
      }
      if guid != NIL {
        o := OpenCommand(guid);
        if o != Done {
          SendsFactsCut(log, sends, false, payloadInProgress || broken.Some?);
          return;
        }
      }
      CommandState();
      StartSend(log, sends, guid, payload);
      label L:
      payloadInProgress := |payload| > MAX_DATA_PAYLOAD;
      sends := sends + [Sent(guid, payload, 0)];
      Bookkeeping@L();
      ghost var readied := pipe.written;
      o := SendChunks(guid, payload);
      if o == Done {
        DeliversBy(guid, payload, old(pipe.written), readied, pipe.written);
      }
    }

    /** The loop of `send`: one acknowledged `Data` line per chunk. */
    method SendChunks(guid: Guid, payload: seq<byte>) returns (o: Outcome)
      requires Inv([], false) && broken.None? && !writeInProgress && payload != []
      requires payloadInProgress == (|payload| > MAX_DATA_PAYLOAD)
      requires guid != NIL ==> awaiting.None? && openCommand == Some(guid)
      requires sends != [] && sends[|sends| - 1] == Sent(guid, payload, 0) && SendsFacts(log, sends, true)
      modifies Repr()
      ensures Valid() && returned == old(returned)
      ensures o.Failed? ==> broken == Some(o.reason)
      ensures o == Done ==>
        awaiting.None? && !Dead() && sends == old(sends)[..|old(sends)| - 1] + [Sent(guid, payload, |payload|)]
      ensures exists n :: sends == old(sends)[..|old(sends)| - 1] + [Sent(guid, payload, n)]
      ensures o == Done ==> pipe.written == old(pipe.written) + DataLines(guid, payload)
      ensures o.Dropped? ==> payloadInProgress == (|payload| > MAX_DATA_PAYLOAD)
      ensures Onward() && (Undisturbed() ==> Sane() && (o == Done || o == Failed(TooMuchQueued)))
    {
      hide Inv, SendsFacts, ClientWire, DataLines;
      ghost var before := sends[..|sends| - 1];
      var done := 0;
      AllOut();
      assert payload[0..] == payload;
      while done < |payload|
        invariant 0 <= done <= |payload| && (done % MAX_DATA_PAYLOAD == 0 || done == |payload|)
        invariant Inv([], false) && broken.None? && !writeInProgress
        invariant payloadInProgress == (|payload| > MAX_DATA_PAYLOAD)
        invariant guid != NIL || done > 0 ==> awaiting.None?
        invariant guid != NIL ==> openCommand == Some(guid)
        invariant sends == before + [Sent(guid, payload, done)] && SendsFacts(log, sends, true)
        invariant returned == old(returned)
        invariant ClientWire(log) + DataLines(guid, payload[done..]) == old(pipe.written) + DataLines(guid, payload)
        invariant Onward()
        decreases |payload| - done
      {
        var n := Min(MAX_DATA_PAYLOAD, |payload| - done);
        var data := Data(Stream.Default, guid, payload[done..done + n]);
        ghost var was := log;
        o := Request(data);
        LogGrows(was, data);
        label L:
        if log != was {
          ContinueSend(was, before, guid, payload, done, n);
          sends := before + [Sent(guid, payload, done + n)];
        }
        Bookkeeping@L();
        if o != Done {
          SendsFactsCut(log, sends, true, payloadInProgress || broken.Some?);
          return;
        }
        ChunkOut(was, guid, payload, done, n);
        done := done + n;
      }
      CommandState();
      AllOut();
      NoDataLines(guid);
      assert payload[|payload|..] == [] && pipe.written + [] == pipe.written;
      SendsFactsCut(log, sends, true, false);
      label M:
      payloadInProgress := false;
      Bookkeeping@M();
      o := Done;
    }

    /** `signal`. */
    method SignalOpen() returns (o: Outcome)
      requires Valid()
      modifies Repr()
      ensures Valid() && Operated() && returned == old(returned) && sends == old(sends)
      ensures o.Failed? ==> broken == Some(o.reason)
      ensures old(Dead()) ==> o.Failed?
      ensures o == Done ==> awaiting.None? && (openCommand.Some? ==> log == old(log) + [Signal(openCommand.value)])
      ensures o == Done && openCommand.None? ==> pipe.written == old(pipe.written)
      ensures o == Done && openCommand.Some? ==>
        pipe.written == old(pipe.written) + Utf8(SignalLine(openCommand.value))
      ensures log == old(log) || (openCommand.Some? && log == old(log) + [Signal(openCommand.value)])
      ensures Onward()
      ensures old(Sane()) && Undisturbed() ==> Sane() && (o == Done || o == Failed(TooMuchQueued))
    {
      hide Inv, SendsFacts, SignalLine, ToLine, ClientWire, Utf8;
      o := Ready();
      if o != Done {
        SendsFactsCut(log, sends, old(payloadInProgress || broken.Some?), payloadInProgress || broken.Some?);
        return;
      }
      o := SettleBounded();
      if o == Done && openCommand.Some? {
        CommandState();
        AllOut();
        o := Control(Signal(openCommand.value));
        if o == Done {
          CommandState();
          AllOut();
          LineAdded(old(log), Signal(openCommand.value));
          RequestLines(openCommand.value, []);
        }
      }
      SendsFactsCut(log, sends, false, payloadInProgress || broken.Some?);
    }

    /** With nothing awaited: the open command, if any, then the session. */
    method CloseAll() returns (o: Outcome)
      requires Inv([], false) && SendsFacts(log, sends, false) && !Dead() && awaiting.None?
      modifies Repr()
      ensures Inv([], false) && SendsFacts(log, sends, false) && !payloadInProgress
      ensures sends == old(sends) && returned == old(returned)
      ensures o.Failed? ==> broken == Some(o.reason)
      ensures o == Done ==> awaiting.None? && openCommand.None? && log != [] && log[|log| - 1] == Close(NIL)
      ensures o == Done ==> ClosesAll(old(pipe.written), pipe.written)
      ensures Onward() && (Undisturbed() ==> Fine(o))
    {
      hide Inv, SendsFacts, ClosesAll, ClientWire, Utf8;
      CommandState();
      AllOut();
      o := Done;
      if openCommand.Some? {
        var open := openCommand.value;
        o := Control(Close(open));
        if o != Done {
          return;
        }
        CommandState();
      }
      o := Control(Close(NIL));
      if o == Done {
        CommandState();
        AllOut();
        ClosesBy(old(log), log, old(pipe.written), pipe.written);
      }
    }

    /** `close`: the open command first, then the session. */
    method CloseSession() returns (o: Outcome)
      requires Valid()
      modifies Repr()
      ensures Valid() && Operated() && returned == old(returned) && sends == old(sends)
      ensures o.Failed? ==> broken == Some(o.reason)
      ensures old(Dead()) ==> o.Failed?
      ensures o == Done ==> awaiting.None? && openCommand.None? && log != [] && log[|log| - 1] == Close(NIL)
      ensures o == Done ==> ClosesAll(old(pipe.written), pipe.written)
      ensures Onward()
      ensures old(Sane()) && Undisturbed() ==> Sane() && (o == Done || o == Failed(TooMuchQueued))
    {
      hide Inv, SendsFacts, ClosesAll;
      o := Ready();
      if o != Done {
        SendsFactsCut(log, sends, old(payloadInProgress || broken.Some?), payloadInProgress || broken.Some?);
        return;
      }
      o := SettleBounded();
      if o == Done {
        o := CloseAll();
      }
      SendsFactsCut(log, sends, false, payloadInProgress || broken.Some?);
    }

    lemma NoViolation()
      requires Valid()
      ensures pipe.server != null ==> pipe.server.violations == []
    {
      hide Agree, Wire, QueueFacts, HearFacts, Faithful, SyncedFacts, SendsFacts, WholeLinesThenTorn;
    }

    /** What a valid session says about its past. */
    lemma Account()
      requires Valid()
      ensures WholeLinesThenTorn(pipe.written, log, torn) && SendsFacts(log, sends, true)
      ensures !Dead() ==> torn == [] && SendsFacts(log, sends, false)
      ensures pipe.server == null ==>
        returned <= PayloadsAfter(tokenize, pipe.all)
    {
      hide Agree, Wire, Faithful, SyncedFacts, WholeLinesThenTorn, Payloads, Lines.Push, AllAcceptable, TotalCost;
      if pipe.server == null {
        assert received + [] == received;
        PayloadsGrow(tokenize, received, BytesOf(pipe.incoming));
      }
    }

    /** The server ends the session. */
    method ServerHangsUp()
      requires Valid() && pipe.server != null
      modifies pipe.server
      ensures Valid() && pipe.server.exited
    {
      hide Agree, Wire, QueueFacts, HearFacts, ClientWire, Faithful, SyncedFacts, SendsFacts, Welcome, ThroughLastAck;
      pipe.server.HangUp();
    }

    /** `dequeue`: the oldest queued payload. */
    method Dequeue() returns (r: Option<seq<byte>>)
      requires Inv([], false)
      modifies this`inbound, this`inboundBytes, this`returned
      ensures Inv([], false)
      ensures r.None? <==> old(inbound) == []
      ensures r.None? ==> unchanged(this) && inboundBytes == 0
      ensures r.Some? ==>
        && r.value == old(inbound)[0] && r.value != []
        && inbound == old(inbound)[1..] && returned == old(returned) + [r.value]
    {
      hide Agree, Wire, HearFacts, QueueFacts, ClientWire, Faithful, SyncedFacts, Pipe.Valid;
      if inbound == [] {
        NothingQueued(inboundBytes, maxQueued, returned, accepted);
        return None;
      }
      var payload := inbound[0];
      QueuePop(inbound, inboundBytes, maxQueued, returned, accepted);
      inboundBytes := inboundBytes - QueueCost(payload);
      inbound := inbound[1..];
      returned := returned + [payload];
      return Some(payload);
    }

    /** `recv`: queued payloads first, even of a broken session. */
    method Recv() returns (r: RecvOutcome)
      requires Valid()
      modifies Repr()
      ensures Valid() && Operated() && sends == old(sends) && pipe.written == old(pipe.written)
      ensures old(inbound) != [] ==> r == Payload(old(inbound)[0]) && inbound == old(inbound)[1..] && unchanged(pipe)
      ensures r.Payload? ==> r.bytes != [] && returned == old(returned) + [r.bytes]
      ensures !r.Payload? ==> returned == old(returned) && inbound == []
      ensures r.RecvFailed? ==> broken == Some(r.reason)
      ensures old(Dead()) && old(inbound) == [] ==> r.RecvFailed?
      ensures pipe.dropped == old(pipe.dropped) + if r.RecvDropped? then 1 else 0
      ensures old(Smooth() && Room()) ==> Smooth() && Room() && !r.RecvFailed? && Advanced()
      ensures old(Smooth() && !Room()) ==> (Smooth() && !Room()) || Short()
      ensures old(Short()) ==> Short()
      ensures Onward()
      ensures old(Sane()) && Undisturbed() ==> Sane() && (r.RecvFailed? ==> r.reason == TooMuchQueued)
    {
      hide Inv, SendsFacts, Harmless, PayloadsAfter, Roomy, Drops;
      ghost var cut := payloadInProgress || broken.Some?;
      while true
        invariant Inv([], false) && Quiet()
        invariant Onward()
        invariant old(Sane()) && Undisturbed() ==> Sane()
        invariant pipe.dropped == old(pipe.dropped)
        invariant old(inbound) != [] ==> inbound == old(inbound) && unchanged(pipe)
        invariant old(Dead()) ==> inbound == old(inbound)
        invariant old(Smooth()) ==> Smooth() && Drops(pipe.incoming) == Drops(old(pipe.incoming))
        invariant old(Smooth()) ==> (Room() <==> old(Room()))
        invariant old(Short()) ==> Short()
        decreases pipe.Left()
      {
        var queued := Dequeue();
        DropsNext(pipe.incoming);
        if queued.Some? {
          SendsFactsCut(log, sends, cut, payloadInProgress || broken.Some?);
          return Payload(queued.value);
        }
        var o := PumpIfReady();
        if o.Failed? {
          queued := Dequeue();
          SendsFactsCut(log, sends, cut, payloadInProgress || broken.Some?);
          return if queued.Some? then Payload(queued.value) else RecvFailed(o.reason);
        }
        SendsFactsCut(log, sends, cut, payloadInProgress || broken.Some?);
        match o
        case Done =>
        case Dropped => return RecvDropped;
      }
    }

    /** One turn of `recv` with nothing queued. */
    method PumpIfReady() returns (o: Outcome)
      requires Inv([], false) && inbound == [] && inboundBytes == 0
      modifies Repr()
      ensures Inv([], false) && Quiet() && Onward()
      ensures o == Done ==> pipe.Left() < old(pipe.Left())
      ensures o.Failed? ==> broken == Some(o.reason)
      ensures o.Dropped? ==> inbound == []
      ensures old(Dead()) ==> o.Failed? && inbound == []
      ensures pipe.dropped == old(pipe.dropped) + if o.Dropped? then 1 else 0
      ensures old(Sane()) && Undisturbed() ==> Sane() && (o.Failed? ==> o.reason == TooMuchQueued)
      ensures old(Smooth()) && !o.Failed? ==> Smooth() && pipe.incoming == Rest(old(pipe.incoming))
      ensures old(Smooth()) ==> (o.Dropped? <==> NextRead(old(pipe.incoming)).ReadDropped?)
      ensures old(Smooth() && Room()) ==> !o.Failed? && Room()
      ensures old(Smooth() && !Room()) ==> if o.Failed? then Short() else !Room()
      ensures old(Short()) ==> Short()
    {
      hide Inv, SendsFacts, Harmless, PayloadsAfter, Roomy, Drops, NeverGone;
      o := Ready();
      if o == Done {
        o := Pump();
      }
    }

    /** With nothing left to come and nothing queued, every payload of the peer's bytes was returned. */
    lemma Drained()
      requires Valid() && Smooth() && pipe.incoming == [] && inbound == []
      ensures returned == PayloadsAfter(tokenize, pipe.all)
    {
      hide Agree, Wire, Faithful, SyncedFacts, WholeLinesThenTorn, Payloads, Lines.Push, AllAcceptable, TotalCost,
           SendsFacts, Harmless;
      assert received + [] == received;
      assert returned + inbound == returned;
    }

    /** With an overfull chunk ahead, or broken by one, not every payload was returned. */
    lemma NotAllReturned()
      requires Valid() && pipe.server == null && ((Smooth() && !Room()) || Short())
      ensures |returned| < |PayloadsAfter(tokenize, pipe.all)|
    {
      hide Agree, Wire, Faithful, SyncedFacts, WholeLinesThenTorn, Payloads, Lines.Push, AllAcceptable, TotalCost,
           SendsFacts, Harmless, Roomy;
      assert |returned| <= |accepted|;
      if !Short() {
        assert received + [] == received;
        OverfullIsAhead(tokenize, received, pipe.incoming, maxQueued);
      }
    }
  }

  lemma AcksNone()
    ensures Acks([]) == []
  {
  }

  lemma WireEndsInNewline(ps: seq<Packet>)
    requires ps != []
    ensures Lines.NEWLINE in Wire(ps)
  {
    hide ServerRecord;
    var records := ServerRecords(ps);
    assert Lines.Joined(records)[|records[0]|] == Lines.NEWLINE;
  }

  lemma SendsFactsCut(log: seq<Packet>, sends: seq<Sent>, cut: bool, later: bool)
    requires SendsFacts(log, sends, cut)
    requires cut ==> later || (sends != [] && Whole(sends[|sends| - 1]))
    ensures SendsFacts(log, sends, later)
  {
  }

  /** A request without data moves no send. */
  lemma NoDataSent(log: seq<Packet>, p: Packet, sends: seq<Sent>)
    requires SendsFacts(log, sends, false) && !p.Data?
    ensures SendsFacts(log + [p], sends, false)
  {
    assert (log + [p])[..|log|] == log;
    forall g: Guid ensures DataOn(log + [p], g) == DataOn(log, g) {
      assert DataOn(log, g) + [] == DataOn(log, g);
    }
  }

  lemma StartSend(log: seq<Packet>, sends: seq<Sent>, guid: Guid, payload: seq<byte>)
    requires SendsFacts(log, sends, false)
    ensures SendsFacts(log, sends + [Sent(guid, payload, 0)], true)
  {
    var next := sends + [Sent(guid, payload, 0)];
    assert next[..|sends|] == sends;
    forall g: Guid ensures DeliveredOn(next, g) == DeliveredOn(sends, g) {
      assert payload[..0] == [];
      assert DeliveredOn(sends, g) + [] == DeliveredOn(sends, g);
    }
  }

  lemma ContinueSend(log: seq<Packet>, before: seq<Sent>, guid: Guid, payload: seq<byte>, done: nat, n: nat)
    requires done + n <= |payload|
    requires SendsFacts(log, before + [Sent(guid, payload, done)], true)
    ensures SendsFacts(log + [Data(Stream.Default, guid, payload[done..done + n])],
                       before + [Sent(guid, payload, done + n)], true)
  {
    var data := Data(Stream.Default, guid, payload[done..done + n]);
    var was, now := before + [Sent(guid, payload, done)], before + [Sent(guid, payload, done + n)];
    assert (log + [data])[..|log|] == log && was[..|before|] == before && now[..|before|] == before;
    forall g: Guid ensures DataOn(log + [data], g) == DeliveredOn(now, g) {
      assert DataOn(log, g) == DeliveredOn(was, g);
      if g == guid {
        assert payload[..done + n] == payload[..done] + data.payload;
        assert DeliveredOn(before, g) + payload[..done + n] == (DeliveredOn(before, g) + payload[..done]) + data.payload;
      }
    }
    assert forall i :: 0 <= i < |before| ==> now[i] == was[i];
  }

  lemma LogGrows(log: seq<Packet>, p: Packet)
    ensures log + [p] != log
  {
    assert |log + [p]| == |log| + 1;
  }

  lemma AckOfAllowedRequest(p: Packet, openCommand: Option<Guid>)
    requires Allowed(p, openCommand)
    ensures AckOf(p) != CommandAck(NIL)
  {
  }

  lemma AllowedIsRequest(p: Packet, openCommand: Option<Guid>)
    requires Allowed(p, openCommand)
    ensures IsRequest(p) && Sendable(p)
  {
  }

  /** `n` bytes of one more request line, after whole lines. */
  lemma LineAdded(log: seq<Packet>, p: Packet)
    ensures ClientWire(log + [p]) == ClientWire(log) + Utf8(ToLine(p))
  {
    hide Utf8, ToLine;
    assert (log + [p])[..|log|] == log;
  }

  /** Nothing to do, or the command of `guid` opened, after another one was closed if need be. */
  ghost predicate Opens(guid: Guid, before: seq<byte>, after: seq<byte>) {
    || after == before
    || after == before + Utf8(CommandLine(guid))
    || exists other: Guid :: other != guid && after == (before + Utf8(CloseLine(other))) + Utf8(CommandLine(guid))
  }

  /** The session closed, after the open command if there is one. */
  ghost predicate ClosesAll(before: seq<byte>, after: seq<byte>) {
    || after == before + Utf8(CloseLine(NIL))
    || exists open: Guid :: open != NIL && after == (before + Utf8(CloseLine(open))) + Utf8(CloseLine(NIL))
  }

  lemma StaysOpen(guid: Guid, written: seq<byte>)
    ensures Opens(guid, written, written)
  {
  }

  /** One more chunk of a payload is out. */
  lemma ChunkOut(log: seq<Packet>, guid: Guid, payload: seq<byte>, done: nat, n: nat)
    requires done < |payload| && n == Min(MAX_DATA_PAYLOAD, |payload| - done)
    ensures done + n <= |payload|
    ensures ClientWire(log + [Data(Stream.Default, guid, payload[done..done + n])]) + DataLines(guid, payload[done + n..])
         == ClientWire(log) + DataLines(guid, payload[done..])
  {
    hide Utf8, ToLine, ClientWire, DataLine;
    var chunk := payload[done..done + n];
    LineAdded(log, Data(Stream.Default, guid, chunk));
    RequestLines(guid, chunk);
    assert payload[done..][..n] == chunk && payload[done..][n..] == payload[done + n..];
    Regroup(ClientWire(log), Utf8(DataLine(guid, chunk)), DataLines(guid, payload[done + n..]));
  }

  lemma NoDataLines(guid: Guid)
    ensures DataLines(guid, []) == []
  {
  }

  /** The command of a pipeline opened, nothing for the pool, and then the payload. */
  ghost predicate Delivers(guid: Guid, payload: seq<byte>, before: seq<byte>, after: seq<byte>) {
    exists readied :: (if guid == NIL then readied == before else Opens(guid, before, readied))
                     && after == readied + DataLines(guid, payload)
  }

  lemma DeliversBy(guid: Guid, payload: seq<byte>, before: seq<byte>, readied: seq<byte>, after: seq<byte>)
    requires if guid == NIL then readied == before else Opens(guid, before, readied)
    requires after == readied + DataLines(guid, payload)
    ensures Delivers(guid, payload, before, after)
  {
    hide Opens, DataLines;
  }

  lemma OpensBy(was: seq<Packet>, log: seq<Packet>, guid: Guid, before: seq<byte>, after: seq<byte>)
    requires before == ClientWire(was) && after == ClientWire(log)
    requires log == was + [Command(guid)]
             || exists other: Guid :: other != guid && log == (was + [Close(other)]) + [Command(guid)]
    ensures Opens(guid, before, after)
  {
    hide Utf8, ToLine, ClientWire, CommandLine, CloseLine;
    RequestLines(guid, []);
    if log == was + [Command(guid)] {
      LineAdded(was, Command(guid));
    } else {
      var other: Guid :| other != guid && log == (was + [Close(other)]) + [Command(guid)];
      RequestLines(other, []);
      LineAdded(was, Close(other));
      LineAdded(was + [Close(other)], Command(guid));
    }
  }

  lemma ClosesBy(was: seq<Packet>, log: seq<Packet>, before: seq<byte>, after: seq<byte>)
    requires before == ClientWire(was) && after == ClientWire(log)
    requires log == was + [Close(NIL)] || exists open: Guid :: open != NIL && log == (was + [Close(open)]) + [Close(NIL)]
    ensures ClosesAll(before, after)
  {
    hide Utf8, ToLine, ClientWire, CommandLine, CloseLine;
    RequestLines(NIL, []);
    if log == was + [Close(NIL)] {
      LineAdded(was, Close(NIL));
    } else {
      var open: Guid :| open != NIL && log == (was + [Close(open)]) + [Close(NIL)];
      RequestLines(open, []);
      LineAdded(was, Close(open));
      LineAdded(was + [Close(open)], Close(NIL));
    }
  }

  lemma OneMoreRequest(written: seq<byte>, log: seq<Packet>, p: Packet, n: nat)
    requires WholeLinesThenTorn(written, log, []) && IsRequest(p) && Sendable(p) && n <= |ClientBytes(p)|
    ensures var part := ClientBytes(p)[..n];
      if n == |ClientBytes(p)| then WholeLinesThenTorn(written + part, log + [p], [])
      else WholeLinesThenTorn(written + part, log, part)
  {
    hide ClientBytes;
    var part := ClientBytes(p)[..n];
    assert written == ClientWire(log);
    if n == |ClientBytes(p)| {
      assert part == ClientBytes(p);
      assert (log + [p])[..|log|] == log;
      assert written + part == ClientWire(log + [p]) + [];
    } else if part != [] {
      assert |part| == n && part == ClientBytes(p)[..|part|];
    }
  }

  /** An unfinished line holds no newline. */
  lemma ClientBytesCut(p: Packet)
    ensures forall n :: 0 <= n < |ClientBytes(p)| ==> Lines.NEWLINE !in ClientBytes(p)[..n]
  {
    hide ClientBytes, LineText, Utf8;
    ClientBytesShape(p);
    var bytes := ClientBytes(p);
    forall n | 0 <= n < |bytes| ensures Lines.NEWLINE !in bytes[..n] {
      assert bytes[..n] == bytes[..|bytes| - 1][..n];
    }
  }

  /** Once the server has acknowledged a legal request, exactly that acknowledgement is on its way. */
  lemma SyncedAfterRequest(sent: seq<Packet>, heard: nat, replies: seq<Packet>, buf: seq<byte>, out: seq<byte>,
                           open: set<Guid>, p: Packet, openCommand: Option<Guid>)
    requires heard <= |sent| && buf + out == Wire(sent[heard..])
    requires Agree(sent[heard..], open, None, openCommand) && Allowed(p, openCommand)
    requires Acks(replies) == [AckOf(p)]
    ensures buf + (out + Wire(replies)) == Wire((sent + replies)[heard..])
    ensures Agree((sent + replies)[heard..], OpenAfter(p, open), Some(AckOf(p)), openCommand)
  {
    hide Wire, Acks, AckOf, OpenAfter, Allowed;
    assert (sent + replies)[heard..] == sent[heard..] + replies;
    WireAppend(sent[heard..], replies);
    AcksAppend(sent[heard..], replies);
    assert buf + (out + Wire(replies)) == (buf + out) + Wire(replies);
    assert [] + [AckOf(p)] == [AckOf(p)];
  }

  lemma AllowedAfterSettling(p: Packet, awaited: Option<Packet>, openCommand: Option<Guid>)
    requires awaited.Some? ==> p.Data? && p.guid == NIL && p.payload != [] && |p.payload| <= MAX_DATA_PAYLOAD
    requires awaited.None? ==> Allowed(p, openCommand)
    ensures Allowed(p, openCommand)
  {
  }

  lemma AcceptableLine(tokenize: Tokenizer, line: string)
    ensures Acceptable(tokenize, line) <==>
      ParseLine(tokenize, line).Ok?
      && (ParseLine(tokenize, line).value.Some? ==>
            ParseLine(tokenize, line).value.value.Data? || IsAck(ParseLine(tokenize, line).value.value))
  {
    hide ParseLine;
  }

  /** What a line costs the queue. */
  function LineCost(tokenize: Tokenizer, line: string): nat {
    TotalCost(Payloads(tokenize, [line]))
  }

  lemma CostOfLine(tokenize: Tokenizer, line: string)
    ensures Acceptable(tokenize, line) ==>
      match ParseLine(tokenize, line).value
      case Some(p) => LineCost(tokenize, line) == if p.Data? then QueueCost(p.payload) else 0
      case None => LineCost(tokenize, line) == 0
  {
    hide ParseLine;
    assert [line][1..] == [] && Payloads(tokenize, [line][1..]) == [];
    forall payload: seq<byte> ensures [payload] + [] == [payload] && TotalCost([payload]) == QueueCost(payload) {
      assert [payload][1..] == [];
    }
  }

  lemma CostOfNoLines(tokenize: Tokenizer)
    ensures TotalCost(Payloads(tokenize, [])) == 0 && AllAcceptable(tokenize, [])
  {
  }

  /** One line more, and what all of them cost at least. */
  lemma CostOfLines(tokenize: Tokenizer, ls: seq<string>, i: nat)
    requires i < |ls| && AllAcceptable(tokenize, ls[..i])
    ensures TotalCost(Payloads(tokenize, ls[..i + 1]))
         == TotalCost(Payloads(tokenize, ls[..i])) + LineCost(tokenize, ls[i])
    ensures TotalCost(Payloads(tokenize, ls[..i + 1])) <= TotalCost(Payloads(tokenize, ls))
    ensures AllAcceptable(tokenize, ls) ==> Acceptable(tokenize, ls[i])
  {
    hide Payloads, Acceptable, TotalCost;
    assert ls[..i + 1] == ls[..i] + [ls[i]];
    PayloadsAppend(tokenize, ls[..i], [ls[i]]);
    TotalCostAppend(Payloads(tokenize, ls[..i]), Payloads(tokenize, [ls[i]]));
    PayloadsAppend(tokenize, ls[..i + 1], ls[i + 1..]);
    assert ls == ls[..i + 1] + ls[i + 1..];
    TotalCostPrefix(Payloads(tokenize, ls[..i + 1]), Payloads(tokenize, ls));
  }

  lemma AcceptableTail(tokenize: Tokenizer, before: seq<string>, ls: seq<string>, i: nat)
    requires i < |ls| && AllAcceptable(tokenize, (before + ls[..i]) + [ls[i]])
    ensures AllAcceptable(tokenize, ls[..i + 1])
  {
    hide AllAcceptable;
    assert (before + ls[..i]) + [ls[i]] == before + ls[..i + 1];
    AcceptableParts(tokenize, before, ls[..i + 1]);
  }

  /** The lines of a chunk that breaks nothing. */
  lemma HarmlessChunk(tokenize: Tokenizer, received: seq<byte>, was: Lines.Splitter, chunk: seq<byte>)
    requires var p := Lines.Push(Lines.Splitter([], false), received); p.error.None? && p.splitter == was
    ensures Harmless(tokenize, received + chunk) ==>
      var p, q := Lines.Push(Lines.Splitter([], false), received), Lines.Push(was, chunk);
      && q.error.None? && AllAcceptable(tokenize, q.lines)
      && Newly(tokenize, received, chunk) == Payloads(tokenize, q.lines)
      && PayloadsAfter(tokenize, received + chunk) == Payloads(tokenize, p.lines + q.lines)
  {
    hide AllAcceptable, Lines.Push, Payloads;
    Lines.PushSplit(Lines.Splitter([], false), received, chunk);
    if Harmless(tokenize, received + chunk) {
      var p, q := Lines.Push(Lines.Splitter([], false), received), Lines.Push(was, chunk);
      AcceptableParts(tokenize, p.lines, q.lines);
      PayloadsAppend(tokenize, p.lines, q.lines);
    }
  }

  /** The next read, and the room for what it brings. */
  lemma RoomAhead(tokenize: Tokenizer, received: seq<byte>, incoming: seq<ReadOutcome>, limit: nat)
    ensures var chunk := Arrived(NextRead(incoming));
      Roomy(tokenize, received, incoming, limit) <==>
        (incoming == [] || TotalCost(Newly(tokenize, received, chunk)) <= limit)
        && Roomy(tokenize, received + chunk, Rest(incoming), limit)
    ensures NextRead(incoming).ReadDropped? ==> TotalCost(Newly(tokenize, received, Arrived(NextRead(incoming)))) == 0
  {
    hide PayloadsAfter, TotalCost;
    assert received + [] == received;
    NothingCosts();
    assert Newly(tokenize, received, []) == [];
  }

  lemma DropsNext(incoming: seq<ReadOutcome>)
    ensures incoming != [] ==>
      Drops(incoming) == Drops(Rest(incoming)) + if NextRead(incoming).ReadDropped? then 1 else 0
    ensures incoming == [] ==> Drops(incoming) == 0
  {
  }

  lemma NothingQueued(cost: nat, limit: nat, returned: seq<seq<byte>>, accepted: seq<seq<byte>>)
    requires QueueFacts([], cost, limit, returned, accepted)
    ensures cost == 0
  {
  }

  lemma ParsedDataIsNonEmpty(tokenize: Tokenizer, line: string)
    ensures match ParseLine(tokenize, line)
      case Ok(Some(p)) => p.Data? ==> p.payload != []
      case _ => true
  {
    hide Trim, EqIgnoreCase, DataAttributes, GuidAttribute;
  }

  /** A chunk of an honest server's output completes exactly its next lines. */
  lemma HearRecords(st: Lines.Splitter, sent: seq<Packet>, heard: nat, chunk: seq<byte>, out: seq<byte>) returns (k: nat)
    requires Lines.Partial(st.buf) && heard <= |sent| && (forall p :: p in sent ==> Welcome(p))
    requires st.buf + chunk + out == Wire(sent[heard..])
    ensures heard + k <= |sent|
    ensures var p := Lines.Push(st, chunk);
      && p.error.None? && p.lines == Texts(sent[heard..heard + k])
      && p.splitter.buf + out == Wire(sent[heard + k..])
  {
    hide FitsLine, LineText, ServerRecord, Lines.Push, Lines.Joined, Lines.AllSpell;
    var ahead := sent[heard..];
    forall p | p in ahead ensures FitsLine(p) {
      assert p in sent && Welcome(p);
    }
    ServerRecordsSpell(ahead);
    k := Lines.PushRecords(st, ServerRecords(ahead), Texts(ahead), chunk, out);
    assert ServerRecords(ahead)[k..] == ServerRecords(sent[heard + k..]);
    assert Texts(ahead)[..k] == Texts(sent[heard..heard + k]);
  }

  /** The `i`-th of those lines reads as the packet it was written for. */
  lemma HeardLine(tokenize: Tokenizer, sent: seq<Packet>, heard: nat, k: nat, i: nat)
    requires Faithful(tokenize) && heard + k <= |sent| && i < k
    requires forall p :: p in sent ==> Welcome(p)
    ensures var line := Texts(sent[heard..heard + k])[i];
      ParseLine(tokenize, line) == Ok(Some(sent[heard + i]))
  {
    hide LineText, ParseLine, Faithful;
    var p := sent[heard + i];
    assert p in sent;
    assert Sendable(p);
    LineRoundTrip(tokenize, p);
  }

  lemma OneMoreIsPrefix(tokenize: Tokenizer, done: seq<string>, rest: seq<string>)
    requires rest != []
    ensures Payloads(tokenize, done + [rest[0]]) <= Payloads(tokenize, done + rest)
  {
    hide Payloads;
    assert done + rest == (done + [rest[0]]) + rest[1..];
    PayloadsAppend(tokenize, done + [rest[0]], rest[1..]);
  }

  /** One more line that the session takes. */
  lemma OneMoreLine(tokenize: Tokenizer, before: seq<string>, ls: seq<string>, i: nat)
    requires i < |ls| && AllAcceptable(tokenize, before + ls[..i])
    ensures Payloads(tokenize, before + ls[..i]) <= Payloads(tokenize, before + ls)
    ensures Acceptable(tokenize, ls[i]) ==>
      && AllAcceptable(tokenize, before + ls[..i + 1])
      && Payloads(tokenize, before + ls[..i + 1]) == Payloads(tokenize, before + ls[..i])
         + (match ParseLine(tokenize, ls[i]).value
            case Some(p) => if p.Data? then [p.payload] else []
            case None => [])
  {
    hide ParseLine;
    var done := before + ls[..i];
    assert before + ls == done + ls[i..];
    PayloadsAppend(tokenize, done, ls[i..]);
    assert before + ls[..i + 1] == done + [ls[i]];
    PayloadsAppend(tokenize, done, [ls[i]]);
    assert [ls[i]][1..] == [];
  }
}
