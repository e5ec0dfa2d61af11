/** The honest server of `src/out_of_proc/fake.rs`, and its oracle for protocol violations. */
module Server {
  import opened Common
  import opened Text
  import opened Packets
  import Lines

  const DEATH: string := "__NamedPipeError__:fake pwsh exited\r\n   at Fake()\r\n"

  datatype Violation =
    | RequestBeforeAckRead
    | BadLine
    | AckToServer
    | SignalOnSession
    | SignalWithoutCommand
    | CommandTwice
    | CloseWithOpenCommands
    | OversizedData
    | DataWithoutCommand

  datatype Reaction = Reply(before: seq<Packet>, ack: Packet, after: seq<Packet>) | Hang(v: Violation) | Die(v: Violation)

  /** The bytes of these packets on the server's stdout. */
  function Wire(ps: seq<Packet>): seq<byte> {
    Lines.Joined(ServerRecords(ps))
  }

  lemma WireAppend(a: seq<Packet>, b: seq<Packet>)
    ensures Wire(a + b) == Wire(a) + Wire(b)
  {
    hide ServerRecord, Lines.Joined;
    assert ServerRecords(a + b) == ServerRecords(a) + ServerRecords(b);
    Lines.JoinedAppend(ServerRecords(a), ServerRecords(b));
  }

  lemma WireNothing()
    ensures Wire([]) == []
  {
  }

  function Acks(ps: seq<Packet>): seq<Packet> {
    if ps == [] then []
    else Acks(ps[..|ps| - 1]) + (if IsAck(ps[|ps| - 1]) then [ps[|ps| - 1]] else [])
  }

  lemma {:induction false} AcksAppend(a: seq<Packet>, b: seq<Packet>)
    ensures Acks(a + b) == Acks(a) + Acks(b)
  {
    if b == [] {
      assert a + b == a;
    } else {
      assert (a + b)[..|a + b| - 1] == a + b[..|b| - 1];
      AcksAppend(a, b[..|b| - 1]);
    }
  }

  /** The packets up to and including the last acknowledgement. */
  function ThroughLastAck(ps: seq<Packet>): seq<Packet> {
    if ps == [] || IsAck(ps[|ps| - 1]) then ps else ThroughLastAck(ps[..|ps| - 1])
  }

  lemma {:induction false} NoAckAfter(ps: seq<Packet>, k: nat)
    requires k <= |ps| && Acks(ps[k..]) == []
    ensures ThroughLastAck(ps) == ThroughLastAck(ps[..k])
    ensures |Wire(ThroughLastAck(ps))| <= |Wire(ps[..k])|
  {
    hide Wire;
    if k == |ps| {
      assert ps[..k] == ps;
      ThroughLastAckPrefix(ps);
    } else {
      var front := ps[..|ps| - 1];
      assert ps[k..][..|ps| - k - 1] == front[k..];
      assert front[..k] == ps[..k];
      NoAckAfter(front, k);
    }
  }

  lemma {:induction false} ThroughLastAckPrefix(ps: seq<Packet>)
    ensures |Wire(ThroughLastAck(ps))| <= |Wire(ps)|
  {
    hide Wire;
    if ps != [] && !IsAck(ps[|ps| - 1]) {
      ThroughLastAckPrefix(ps[..|ps| - 1]);
      WireAppend(ps[..|ps| - 1], [ps[|ps| - 1]]);
      assert ps == ps[..|ps| - 1] + [ps[|ps| - 1]];
    }
  }

  predicate OnlySmallData(ps: seq<Packet>) {
    forall p :: p in ps ==> p.Data? && Welcome(p)
  }

  lemma {:induction false} DataHasNoAcks(ps: seq<Packet>)
    requires OnlySmallData(ps)
    ensures Acks(ps) == []
  {
    if ps != [] {
      assert ps[|ps| - 1] in ps;
      DataHasNoAcks(ps[..|ps| - 1]);
    }
  }

  lemma OneAck(before: seq<Packet>, ack: Packet, after: seq<Packet>)
    requires OnlySmallData(before) && OnlySmallData(after) && IsAck(ack)
    ensures Acks(before + [ack] + after) == [ack]
    ensures forall p :: p in before + [ack] + after ==> Welcome(p)
  {
    hide Welcome;
    AckIsWelcome(ack);
    DataHasNoAcks(before);
    DataHasNoAcks(after);
    AcksAppend(before, [ack]);
    AcksAppend(before + [ack], after);
    assert Acks([ack]) == Acks([]) + [ack];
  }

  /** The acknowledgement of a request. */
  function AckOf(p: Packet): Packet {
    match p
    case Data(_, g, _) => DataAck(g)
    case Command(g) => CommandAck(g)
    case Signal(g) => SignalAck(g)
    case Close(g) => CloseAck(g)
    case _ => p
  }

  predicate IsRequest(p: Packet) {
    p.Data? || p.Command? || p.Signal? || p.Close?
  }

  /** A request is acknowledged to the pipeline it came from, under its own name with `Ack` added. */
  lemma AckAnswersInKind(p: Packet)
    requires IsRequest(p)
    ensures ElementName(LineText(AckOf(p))) == ElementName(LineText(p)) + "Ack"
    ensures AckOf(p).guid == p.guid && IsAck(AckOf(p))
  {
    hide LineText, ElementName;
    ElementNames(p);
    ElementNames(AckOf(p));
  }

  /**
   * The rules of `react` and `data` that a request can break, and one more: the fake answers a signal for any
   * pipeline, this oracle only for one whose command is open.
   */
  function Broken(p: Packet, open: set<Guid>): Option<Violation> {
    if !IsRequest(p) then Some(AckToServer)
    else if p.Data? && |p.payload| > MAX_DATA_PAYLOAD then Some(OversizedData)
    else if p.Data? && p.guid != NIL && p.guid !in open then Some(DataWithoutCommand)
    else if p.Command? && p.guid in open then Some(CommandTwice)
    else if p.Signal? && p.guid == NIL then Some(SignalOnSession)
    else if p.Signal? && p.guid !in open then Some(SignalWithoutCommand)
    else if p.Close? && p.guid == NIL && |open| > 0 then Some(CloseWithOpenCommands)
    else None
  }

  function OpenAfter(p: Packet, open: set<Guid>): set<Guid> {
    if p.Command? then open + {p.guid}
    else if p.Close? && p.guid != NIL then open - {p.guid}
    else open
  }

  /** What a client may ask of a server with these commands open, and what is open afterwards. */
  lemma LegalRequests(p: Packet, open: set<Guid>)
    ensures Broken(p, open).None? <==>
      || (p.Data? && |p.payload| <= 32768 && (p.guid == NIL || p.guid in open))
      || (p.Command? && p.guid !in open)
      || (p.Signal? && p.guid != NIL && p.guid in open)
      || (p.Close? && (p.guid != NIL || open == {}))
    ensures forall g: Guid :: g in OpenAfter(p, open) <==> p == Command(g) || (g in open && (p != Close(g) || g == NIL))
  {
  }

  /** The packet a client line holds, as the server requires it: nothing around the element. */
  function ClientPacket(tokenize: Tokenizer, line: string): Option<Packet> {
    if Trim(line) == "" || Trim(line) != line then None
    else match ParseLine(tokenize, line)
         case Ok(p) => p
         case Err(_) => None
  }

  lemma NoData()
    ensures OnlySmallData([])
  {
  }

  lemma ThroughLastAckSnoc(ps: seq<Packet>, p: Packet)
    ensures ThroughLastAck(ps + [p]) == if IsAck(p) then ps + [p] else ThroughLastAck(ps)
  {
    hide IsAck;
    assert (ps + [p])[..|ps|] == ps;
  }

  /** The text of a client line; bytes that are not UTF-8 hold no packet. */
  function TextOf(line: seq<byte>): string {
    FromUtf8(line).UnwrapOr("")
  }

  /** What comes before the first newline. */
  function FirstLine(bytes: seq<byte>): seq<byte> {
    bytes[..Lines.NewlineAt(bytes)]
  }

  /** `State`. */
  class HonestServer {
    const tokenize: Tokenizer
    /** Client bytes after the last newline. */
    var partial: seq<byte>
    var violations: seq<Violation>
    var open: set<Guid>
    /** Died or hung up: client lines are no longer reacted to. */
    var exited: bool
    /** Bytes not read yet, bytes ever queued, bytes ever read, offset past the last acknowledgement. */
    var out: seq<byte>
    var queued: nat
    var read: nat
    var ackEnd: nat
    /** Every packet queued so far. */
    ghost var sent: seq<Packet>

    ghost predicate Valid()
      reads this
    {
      && read + |out| == queued
      && (forall p :: p in sent ==> Welcome(p))
      && (!exited ==> queued == |Wire(sent)| && ackEnd == |Wire(ThroughLastAck(sent))|)
    }

    constructor (tokenize: Tokenizer)
      ensures Valid() && this.tokenize == tokenize
      ensures violations == [] && open == {} && !exited && partial == [] && out == [] && sent == []
    {
      this.tokenize := tokenize;
      partial, violations, open, exited := [], [], {}, false;
      out, queued, read, ackEnd, sent := [], 0, 0, 0, [];
    }

    method Emit(bytes: seq<byte>)
      modifies this`out, this`queued
      ensures out == old(out) + bytes && queued == old(queued) + |bytes|
    {
      out, queued := out + bytes, queued + |bytes|;
    }

    method EmitPacket(p: Packet)
      requires Valid() && !exited && Welcome(p)
      modifies this`out, this`queued, this`ackEnd, this`sent
      ensures Valid() && sent == old(sent) + [p] && out == old(out) + Wire([p])
    {
      hide Wire, Welcome, ThroughLastAck, IsAck;
      Emit(Wire([p]));
      WireAppend(sent, [p]);
      ThroughLastAckSnoc(sent, p);
      sent := sent + [p];
      if IsAck(p) {
        ackEnd := queued;
      }
    }

    method EmitAll(ps: seq<Packet>)
      requires Valid() && !exited && forall p :: p in ps ==> Welcome(p)
      modifies this`out, this`queued, this`ackEnd, this`sent
      ensures Valid() && sent == old(sent) + ps && out == old(out) + Wire(ps)
    {
      WireNothing();
      hide Wire, Welcome, ThroughLastAck;
      for i := 0 to |ps|
        invariant Valid() && sent == old(sent) + ps[..i] && out == old(out) + Wire(ps[..i])
      {
        assert ps[..i + 1] == ps[..i] + [ps[i]];
        WireAppend(ps[..i], [ps[i]]);
        EmitPacket(ps[i]);
      }
      assert ps[..|ps|] == ps;
    }

    method KillWith(v: Violation)
      modifies this`violations, this`out, this`queued, this`exited
      ensures exited && violations == old(violations) + [v]
      ensures old(Valid()) ==> Valid()
    {
      violations := violations + [v];
      Die();
    }

    /** `die`: the last words, then nothing. */
    method Die()
      modifies this`out, this`queued, this`exited
      ensures exited
      ensures old(Valid()) ==> Valid()
    {
      hide Utf8, Wire, ThroughLastAck, Welcome;
      Emit(Utf8(DEATH));
      exited := true;
    }

    /** `react`: the replies hold any small `Data` where the fake sends some. */
    method React(line: string) returns (r: Reaction)
      modifies this`open
      ensures match ClientPacket(tokenize, line)
        case None => r == Reaction.Die(BadLine) && open == old(open)
        case Some(p) =>
          match Broken(p, old(open))
          case Some(v) => (r == Reaction.Die(v) || r == Hang(v)) && open == old(open)
          case None =>
            && r.Reply? && r.ack == AckOf(p) && IsRequest(p) && open == OpenAfter(p, old(open))
            && OnlySmallData(r.before) && OnlySmallData(r.after)
    {
      hide ParseLine, Trim, OnlySmallData, Broken, AckOf, OpenAfter, IsRequest;
      if Trim(line) == "" || Trim(line) != line {
        return Reaction.Die(BadLine);
      }
      var parsed := ParseLine(tokenize, line);
      if parsed.Err? || parsed.value.None? {
        return Reaction.Die(BadLine);
      }
      var before := AnyData();
      var after := AnyData();
      r := ReactTo(parsed.value.value, before, after);
    }

    /** The same for a line that is a packet, with what the server has to say around the reply. */
    method ReactTo(p: Packet, before: seq<Packet>, after: seq<Packet>) returns (r: Reaction)
      requires OnlySmallData(before) && OnlySmallData(after)
      modifies this`open
      ensures match Broken(p, old(open))
        case Some(v) => (r == Reaction.Die(v) || r == Hang(v)) && open == old(open)
        case None =>
          && r.Reply? && r.ack == AckOf(p) && IsRequest(p) && open == OpenAfter(p, old(open))
          && OnlySmallData(r.before) && OnlySmallData(r.after)
    {
      hide OnlySmallData;
      NoData();
      match p
      case Signal(g) =>
        if g == NIL {
          return Reaction.Die(SignalOnSession);
        }
        if g !in open {
          return Reaction.Die(SignalWithoutCommand);
        }
        return Reply(before, SignalAck(g), []);
      case Command(g) =>
        if g in open {
          return Reaction.Die(CommandTwice);
        }
        open := open + {g};
        return Reply([], CommandAck(g), []);
      case Close(g) =>
        if g == NIL {
          if |open| > 0 {
            return Hang(CloseWithOpenCommands);
          }
          return Reply(before, CloseAck(NIL), []);
        }
        open := open - {g};
        return Reply([], CloseAck(g), []);
      case Data(_, g, payload) =>
        if |payload| > MAX_DATA_PAYLOAD {
          return Reaction.Die(OversizedData);
        }
        if g != NIL && g !in open {
          return Reaction.Die(DataWithoutCommand);
        }
        return Reply(before, DataAck(g), after);
      case _ => return Reaction.Die(AckToServer);
    }

    /** Whatever PSRP messages the server has to say, one small `Data` line per fragment. */
    method AnyData() returns (ps: seq<Packet>)
      ensures OnlySmallData(ps)
    {
      ps := *;
      if !OnlySmallData(ps) {
        ps := [];
      }
    }

    /** The request `p` took effect, and its acknowledgement was queued once. */
    twostate predicate Acknowledged(p: Packet)
      reads this
    {
      && open == OpenAfter(p, old(open))
      && exists replies ::
        Acks(replies) == [AckOf(p)] && sent == old(sent) + replies && out == old(out) + Wire(replies)
    }

    /** `bytes` is the line of the legal request `p`, sent at a legal moment. */
    ghost predicate LegalNow(p: Packet, bytes: seq<byte>)
      reads this
    {
      && partial == [] && bytes == Packets.ClientBytes(p)
      && ClientPacket(tokenize, LineText(p)) == Some(p)
      && ackEnd <= read && Broken(p, open).None?
    }

    /** A complete line that breaks no rule, at a moment when one may be written. */
    ghost predicate LegalLine(line: seq<byte>)
      reads this
    {
      var p := ClientPacket(tokenize, TextOf(line));
      ackEnd <= read && p.Some? && Broken(p.value, open).None?
    }

    /**
     * `client_line`. A live server records a violation exactly when the line comes before the last
     * acknowledgement was read or breaks a rule; else it acknowledges the request once, or dies.
     */
    method ClientLine(line: string)
      requires Valid()
      modifies this
      ensures Valid() && partial == old(partial) && read == old(read)
      ensures old(exited) ==>
        exited && violations == old(violations) && open == old(open) && out == old(out) && sent == old(sent)
      ensures !old(exited) ==>
        var p := ClientPacket(tokenize, line);
        (violations == old(violations)
         <==> old(ackEnd <= read) && p.Some? && Broken(p.value, old(open)).None?)
      ensures !old(exited) && !exited && violations == old(violations) ==>
        Acknowledged(ClientPacket(tokenize, line).value)
      ensures old(violations) <= violations
    {
      hide Wire, ThroughLastAck, Trim, ParseLine, OpenAfter, Broken, Acks, ClientPacket, OnlySmallData, Welcome;
      if exited {
        return;
      }
      if read < ackEnd {
        KillWith(RequestBeforeAckRead);
        return;
      }
      var reaction := React(line);
      match reaction
      case Hang(v) => violations := violations + [v];
      case Die(v) => KillWith(v);
      case Reply(before, ack, after) =>
        var dies: bool := *;
        if dies {
          Die();
          return;
        }
        var replies := before + [ack] + after;
        OneAck(before, ack, after);
        EmitAll(replies);
    }

    /** One complete line, and nothing after it. */
    ghost predicate OneLegalLine(bytes: seq<byte>)
      reads this
    {
      Lines.NewlineAt(bytes) + 1 == |bytes| && LegalLine(FirstLine(bytes))
    }

    /** The loop of `client_bytes`: reacts to every complete line; an illegal one that comes first is recorded. */
    method ReactToLines()
      requires Valid()
      modifies this
      ensures Valid() && read == old(read) && old(violations) <= violations
      ensures old(exited) ==> exited && violations == old(violations)
      ensures Lines.NEWLINE !in old(partial) ==> unchanged(this)
      ensures Lines.NEWLINE in old(partial) && !old(exited) && !old(LegalLine(FirstLine(partial))) ==>
        old(violations) < violations
      ensures old(OneLegalLine(partial)) ==>
        && partial == [] && violations == old(violations)
        && (!exited ==> Acknowledged(ClientPacket(tokenize, TextOf(FirstLine(old(partial)))).value))
    {
      hide Wire, ThroughLastAck, ClientPacket, OpenAfter, Broken, Lines.NewlineAt, TextOf, Welcome;
      ghost var all := partial;
      Lines.NewlineAtIsFirst(all);
      ghost var started := false;
      while Lines.NewlineAt(partial) < |partial|
        invariant Valid() && read == old(read) && old(violations) <= violations
        invariant old(exited) ==> exited && violations == old(violations)
        invariant !started ==> unchanged(this)
        invariant started ==> Lines.NEWLINE in all
        invariant started && !old(exited) && !old(LegalLine(FirstLine(partial))) ==> old(violations) < violations
        invariant started && old(OneLegalLine(partial)) ==>
          && partial == [] && violations == old(violations)
          && (!exited ==> Acknowledged(ClientPacket(tokenize, TextOf(FirstLine(all))).value))
        decreases |partial|
      {
        var end := Lines.NewlineAt(partial);
        Lines.NewlineAtIsFirst(partial);
        var line := partial[..end];
        partial := partial[end + 1..];
        ClientLine(TextOf(line));
        started := true;
      }
      if !started {
        Lines.NewlineNone(partial);
      }
    }

    /** `client_bytes`: the bytes wait for their newline. */
    method ClientBytes(bytes: seq<byte>)
      requires Valid()
      modifies this
      ensures Valid() && read == old(read) && old(violations) <= violations
      ensures old(exited) ==> exited && violations == old(violations)
      ensures Lines.NEWLINE !in old(partial) + bytes ==>
        partial == old(partial) + bytes
        && unchanged(this`violations, this`open, this`exited, this`out, this`sent, this`ackEnd)
      ensures Lines.NEWLINE in old(partial) + bytes && !old(exited) && !old(LegalLine(FirstLine(partial + bytes))) ==>
        old(violations) < violations
      ensures forall p :: old(LegalNow(p, bytes)) ==>
        partial == [] && violations == old(violations) && (!exited ==> Acknowledged(p))
    {
      hide Wire, ThroughLastAck, ClientPacket, OpenAfter, Broken, LineText, FromUtf8, Packets.ClientBytes,
           Lines.NewlineAt, Welcome, TextOf, FirstLine;
      partial := partial + bytes;
      NothingBefore(bytes);
      forall p | old(LegalNow(p, bytes))
        ensures OneLegalLine(bytes) && ClientPacket(tokenize, TextOf(FirstLine(bytes))) == Some(p)
      {
        LegalBytes(p);
      }
      ReactToLines();
    }

    /** The environment ends the session: the fake's `hang_up`. */
    method HangUp()
      requires Valid()
      modifies this`exited
      ensures Valid() && exited
    {
      exited := true;
    }

    /** A read of `n` bytes. */
    method Take(n: nat) returns (chunk: seq<byte>)
      requires Valid() && n <= |out|
      modifies this`out, this`read
      ensures Valid() && chunk == old(out)[..n] && out == old(out)[n..]
    {
      chunk := out[..n];
      out, read := out[n..], read + n;
    }
  }

  lemma OneClientLine(p: Packet, end: nat)
    requires end == Lines.NewlineAt(ClientBytes(p))
    ensures end + 1 == |ClientBytes(p)|
    ensures FromUtf8(ClientBytes(p)[..end]) == Some(LineText(p))
    ensures Lines.NEWLINE in ClientBytes(p)
  {
    hide LineText, Utf8, FromUtf8;
    ClientBytesShape(p);
    var front := ClientBytes(p)[..|ClientBytes(p)| - 1];
    assert ClientBytes(p) == front + [Lines.NEWLINE];
    Lines.NoNewlineIn(front);
    Lines.NewlineAtAppend(front, [Lines.NEWLINE]);
    FromUtf8OfUtf8(LineText(p));
  }

  /** The bytes of a packet are one line, with the packet's text. */
  lemma LegalBytes(p: Packet)
    ensures Lines.NewlineAt(ClientBytes(p)) + 1 == |ClientBytes(p)|
    ensures TextOf(FirstLine(ClientBytes(p))) == LineText(p)
  {
    hide LineText, FromUtf8, ClientBytes, Lines.NewlineAt;
    OneClientLine(p, Lines.NewlineAt(ClientBytes(p)));
  }

  lemma ClientLineIsPacket(tokenize: Tokenizer, p: Packet)
    requires Faithful(tokenize) && Sendable(p)
    ensures ClientPacket(tokenize, LineText(p)) == Some(p)
  {
    hide LineText;
    LineTextShape(p);
    BracketedIsPlain(LineText(p));
    LineRoundTrip(tokenize, p);
  }
}
