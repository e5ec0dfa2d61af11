/** Whole runs of a session: any operations in any order, each dropped wherever it may be. */
module Runs {
  import opened Common
  import opened Text
  import opened Packets
  import opened Server
  import opened Session
  import opened Engine
  import Lines

  /** What a caller may do; `HangUp` is the server's own move. */
  datatype Op = DoSend(guid: Guid, payload: seq<byte>) | DoRecv | DoSignal | DoClose | HangUp

  /**
   * The sends of a run are its send operations, in order; some never reached their payload, and those that ended
   * well went out whole.
   */
  ghost predicate FromOps(sends: seq<Sent>, ops: seq<Op>, outcomes: seq<Outcome>)
    requires |outcomes| == |ops|
  {
    if ops == [] then sends == []
    else
      var n := |ops| - 1;
      || (FromOps(sends, ops[..n], outcomes[..n]) && !Finished(ops[n], outcomes[n]))
      || (sends != [] && SentBy(sends[|sends| - 1], ops[n], outcomes[n])
          && FromOps(sends[..|sends| - 1], ops[..n], outcomes[..n]))
  }

  /** A send with something to send that ended well. */
  predicate Finished(op: Op, o: Outcome) {
    op.DoSend? && op.payload != [] && o == Done
  }

  predicate SentBy(s: Sent, op: Op, o: Outcome) {
    && op.DoSend? && s.guid == op.guid && s.payload == op.payload
    && (o == Done ==> s.out == |s.payload|)
  }

  lemma OneMoreOp(sends: seq<Sent>, before: seq<Sent>, ops: seq<Op>, outcomes: seq<Outcome>, op: Op, o: Outcome)
    requires |outcomes| == |ops| && FromOps(before, ops, outcomes)
    requires if sends == before then !Finished(op, o)
             else |sends| == |before| + 1 && before <= sends && SentBy(sends[|before|], op, o)
    ensures FromOps(sends, ops + [op], outcomes + [o])
  {
    assert (ops + [op])[..|ops|] == ops && (outcomes + [o])[..|ops|] == outcomes;
    if sends != before {
      assert sends[..|sends| - 1] == before;
    }
  }

  /** Each send that ended well stands whole among the sends. */
  lemma {:induction false} FinishedSendsAreWhole(sends: seq<Sent>, ops: seq<Op>, outcomes: seq<Outcome>, i: nat)
    requires |outcomes| == |ops| && FromOps(sends, ops, outcomes) && i < |ops| && Finished(ops[i], outcomes[i])
    ensures Sent(ops[i].guid, ops[i].payload, |ops[i].payload|) in sends
    decreases |ops|
  {
    var n := |ops| - 1;
    if FromOps(sends, ops[..n], outcomes[..n]) && !Finished(ops[n], outcomes[n]) {
      FinishedSendsAreWhole(sends, ops[..n], outcomes[..n], i);
    } else if i < n {
      FinishedSendsAreWhole(sends[..|sends| - 1], ops[..n], outcomes[..n], i);
    } else {
      assert sends[|sends| - 1] == Sent(ops[i].guid, ops[i].payload, |ops[i].payload|);
    }
  }

  /**
   * How an operation ends when nothing comes in between: well, or with a queue that overflowed; a receive may also
   * wait for a server that has nothing to say.
   */
  predicate Expected(op: Op, o: Outcome) {
    o == Done || o == Failed(TooMuchQueued) || (op.DoRecv? && o == Dropped)
  }

  predicate AllExpected(ops: seq<Op>, outcomes: seq<Outcome>)
    requires |outcomes| == |ops|
  {
    forall i :: 0 <= i < |ops| ==> Expected(ops[i], outcomes[i])
  }

  lemma OneMoreExpected(ops: seq<Op>, outcomes: seq<Outcome>, op: Op, o: Outcome)
    requires |outcomes| == |ops| && AllExpected(ops, outcomes) && Expected(op, o)
    ensures AllExpected(ops + [op], outcomes + [o])
  {
  }

  /** What came in between: reads cut short, writes not finished, a server that left. */
  datatype Disturbance = Disturbance(cuts: nat, unfinished: nat, left: bool)

  const CALM := Disturbance(0, 0, false)

  /** One operation, whatever becomes of it. */
  method Perform(s: OutOfProcSession, op: Op) returns (got: seq<seq<byte>>, o: Outcome)
    requires s.Valid()
    modifies s.Repr()
    ensures s.Valid() && s.Operated()
    ensures s.returned == old(s.returned) + got && (op.DoRecv? && o == Done ==> got != [])
    ensures if s.sends == old(s.sends) then !Finished(op, o)
            else exists sent :: s.sends == old(s.sends) + [sent] && SentBy(sent, op, o)
    ensures op.DoRecv? && old(s.Smooth() && s.Room()) ==> s.Smooth() && s.Room() && s.Advanced()
    ensures op.DoRecv? && old((s.Smooth() && !s.Room()) || s.Short()) ==> (s.Smooth() && !s.Room()) || s.Short()
    ensures s.Onward() && (old(s.Sane()) && s.Undisturbed() ==> s.Sane() && Expected(op, o))
  {
    hide OutOfProcSession.Inv, SendsFacts, Harmless, Roomy, PayloadsAfter;
    got := [];
    match op
    case DoSend(guid, payload) =>
      ghost var before := s.sends;
      o := s.Send(guid, payload);
      if s.sends != before {
        var n :| s.sends == before + [Session.Sent(guid, payload, n)];
        assert s.sends[|before|] == Session.Sent(guid, payload, n);
        assert SentBy(Session.Sent(guid, payload, n), op, o);
      }
    case DoRecv =>
      var r := s.Recv();
      match r {
        case Payload(bytes) =>
          got := [bytes];
          o := Done;
        case RecvFailed(reason) => o := Failed(reason);
        case RecvDropped => o := Dropped;
      }
    case DoSignal =>
      o := s.SignalOpen();
    case DoClose =>
      o := s.CloseSession();
    case HangUp =>
      o := Done;
      if s.pipe.server != null {
        s.ServerHangsUp();
      }
  }

  /**
   * Against the honest server no rule is ever broken: no request before the previous
   * acknowledgement was read, no data, signal or command out of place, no close with a command open.
   * And the two never wait for each other in vain: undisturbed, every operation ends as expected.
   */
  method RunAgainstHonestServer(tokenize: Tokenizer, ops: seq<Op>, maxQueued: nat)
    returns (violations: seq<Violation>, outcomes: seq<Outcome>, got: seq<seq<byte>>,
             written: seq<byte>, disturbance: Disturbance, ghost log: seq<Packet>, ghost torn: seq<byte>, ghost sends: seq<Sent>)
    requires Faithful(tokenize)
    ensures violations == [] && WholeLinesThenTorn(written, log, torn)
    ensures |outcomes| == |ops| && FromOps(sends, ops, outcomes) && SendsFacts(log, sends, true)
    ensures disturbance == CALM ==> AllExpected(ops, outcomes)
  {
    hide OutOfProcSession.Inv, SendsFacts, Faithful, FromOps, WholeLinesThenTorn, AllExpected, Expected, Harmless, Roomy,
         PayloadsAfter, SentBy, Finished;
    WireNothing();
    var server := new HonestServer(tokenize);
    var pipe := new Pipe(server, []);
    var s := new OutOfProcSession(tokenize, pipe, maxQueued);
    got, outcomes := [], [];
    NoOps();
    for i := 0 to |ops|
      invariant s.Valid() && fresh(s.Repr()) && s.pipe == pipe && pipe.server == server
      invariant |outcomes| == i && FromOps(s.sends, ops[..i], outcomes)
      invariant pipe.cuts == 0 && pipe.unfinished == 0 && !server.exited ==>
        s.Sane() && AllExpected(ops[..i], outcomes)
    {
      ghost var before := s.sends;
      var more, o := Perform(s, ops[i]);
      OneMoreOp(s.sends, before, ops[..i], outcomes, ops[i], o);
      if pipe.cuts == 0 && pipe.unfinished == 0 && !server.exited {
        OneMoreExpected(ops[..i], outcomes, ops[i], o);
      }
      assert ops[..i + 1] == ops[..i] + [ops[i]];
      got, outcomes := got + more, outcomes + [o];
    }
    assert ops[..|ops|] == ops;
    s.NoViolation();
    s.Account();
    violations, written := server.violations, pipe.written;
    disturbance := Disturbance(pipe.cuts, pipe.unfinished, server.exited);
    log, torn, sends := s.log, s.torn, s.sends;
  }

  lemma NoOps()
    ensures FromOps([], [], []) && AllExpected([], [])
  {
  }

  /** A session between two operations: whether it is dead, what it has written, and why it broke. */
  datatype Moment = Moment(dead: bool, written: seq<byte>, broken: Option<Reason>)

  /** What is left of a run: how each operation ended, the moment after it, and the payloads returned. */
  datatype Trace = Trace(outcomes: seq<Outcome>, moments: seq<Moment>, got: seq<seq<byte>>)

  /** Once dead for ever dead, with nothing more written; the first reason sticks. */
  predicate StaysDead(moments: seq<Moment>) {
    forall i, j :: 0 <= i < j < |moments| ==> Follows(moments[i], moments[j])
  }

  predicate Follows(before: Moment, after: Moment) {
    && (before.dead ==> after.dead && after.written == before.written)
    && (before.broken.Some? ==> before.dead && after.broken == before.broken)
  }

  /** The last moment, or the start. */
  function LastMoment(moments: seq<Moment>): Moment {
    if moments == [] then Moment(false, [], None) else moments[|moments| - 1]
  }

  lemma StaysDeadSnoc(moments: seq<Moment>, m: Moment)
    requires StaysDead(moments) && Follows(LastMoment(moments), m)
    ensures StaysDead(moments + [m])
  {
    forall i | 0 <= i < |moments| ensures Follows(moments[i], m) {
      if i < |moments| - 1 {
        assert Follows(moments[i], moments[|moments| - 1]);
      }
    }
  }

  /** The payloads in all that a peer sends. */
  ghost function PayloadsIn(tokenize: Tokenizer, incoming: seq<ReadOutcome>): seq<seq<byte>> {
    PayloadsAfter(tokenize, BytesOf(incoming))
  }

  /**
   * A run of receives only, against a peer whose stream does not end and whose bytes break nothing, with one
   * receive for each payload and one more for each that is dropped waiting.
   */
  ghost predicate Patient(tokenize: Tokenizer, incoming: seq<ReadOutcome>, ops: seq<Op>) {
    && (forall i :: 0 <= i < |ops| ==> ops[i].DoRecv?)
    && NeverGone(incoming) && Harmless(tokenize, BytesOf(incoming))
    && |PayloadsIn(tokenize, incoming)| + Drops(incoming) <= |ops|
  }

  /** How far `i` receives of a patient run have come: what they returned, and the drops still to come. */
  ghost predicate OnTheWay(returned: seq<seq<byte>>, left: nat, all: seq<seq<byte>>, drops: nat, i: nat) {
    left <= drops && (i + left <= |returned| + drops || returned == all)
  }

  /** A receive more, unless everything was returned already. */
  lemma OneReceive(s: OutOfProcSession, incoming: seq<ReadOutcome>, before: seq<seq<byte>>, was: nat, i: nat)
    requires s.pipe.all == BytesOf(incoming) && s.Valid() && s.Smooth()
    requires before <= s.returned && Drops(s.pipe.incoming) <= was
    requires |before| + Drops(s.pipe.incoming) < |s.returned| + was || (s.inbound == [] && s.pipe.incoming == [])
    requires OnTheWay(before, was, PayloadsIn(s.tokenize, incoming), Drops(incoming), i)
    ensures OnTheWay(s.returned, Drops(s.pipe.incoming), PayloadsIn(s.tokenize, incoming), Drops(incoming), i + 1)
  {
    hide OutOfProcSession.Inv, SendsFacts, Harmless, WholeLinesThenTorn, PayloadsAfter, BytesOf, Drops, Roomy;
    s.Account();
    if s.inbound == [] && s.pipe.incoming == [] {
      s.Drained();
    }
  }

  /**
   * Against any peer: what is written is whole request lines and at most one torn line at the end;
   * nothing follows once the session is dead between two operations; the first reason sticks; the
   * data of each pipeline is whole payloads of the sends, at most the last one cut; what is returned
   * is, in order, a prefix of the payloads in the peer's bytes, however they were cut; and a patient
   * run returns them all exactly when the queue has room for what any one chunk completes.
   */
  method RunAgainstAnyPeer(tokenize: Tokenizer, incoming: seq<ReadOutcome>, ops: seq<Op>, maxQueued: nat)
    returns (trace: Trace, ghost log: seq<Packet>, ghost torn: seq<byte>, ghost sends: seq<Sent>)
    ensures |trace.moments| == |trace.outcomes| == |ops| && StaysDead(trace.moments)
    ensures WholeLinesThenTorn(LastMoment(trace.moments).written, log, torn)
    ensures !LastMoment(trace.moments).dead ==> torn == [] && SendsFacts(log, sends, false)
    ensures SendsFacts(log, sends, true) && FromOps(sends, ops, trace.outcomes)
    ensures trace.got <= PayloadsIn(tokenize, incoming)
    ensures Patient(tokenize, incoming, ops) ==>
      (trace.got == PayloadsIn(tokenize, incoming) <==> Roomy(tokenize, [], incoming, maxQueued))
  {
    hide OutOfProcSession.Inv, SendsFacts, WholeLinesThenTorn, PayloadsAfter, BytesOf, Harmless, Drops, StaysDead,
         FromOps, Roomy;
    var pipe := new Pipe(null, incoming);
    var s := new OutOfProcSession(tokenize, pipe, maxQueued);
    var got: seq<seq<byte>> := [];
    var moments: seq<Moment>, outcomes: seq<Outcome> := [], [];
    ghost var patient := Patient(tokenize, incoming, ops);
    ghost var room := Roomy(tokenize, [], incoming, maxQueued);
    NoOps();
    StartsAlive();
    for i := 0 to |ops|
      invariant s.Valid() && fresh(s.Repr()) && s.pipe == pipe && pipe.server == null && s.tokenize == tokenize
      invariant pipe.all == BytesOf(incoming)
      invariant got == s.returned && |outcomes| == i && FromOps(s.sends, ops[..i], outcomes)
      invariant |moments| == i && StaysDead(moments)
      invariant LastMoment(moments) == Moment(s.Dead(), pipe.written, s.broken)
      invariant patient && room ==> s.Smooth() && s.Room()
      invariant patient && !room ==> (s.Smooth() && !s.Room()) || s.Short()
      invariant patient && room ==> OnTheWay(s.returned, Drops(pipe.incoming), PayloadsIn(tokenize, incoming), Drops(incoming), i)
    {
      assert ops[..i + 1] == ops[..i] + [ops[i]];
      ghost var before, left, sent := s.returned, Drops(pipe.incoming), s.sends;
      var more, o := Perform(s, ops[i]);
      OneMoreOp(s.sends, sent, ops[..i], outcomes, ops[i], o);
      if patient && room {
        OneReceive(s, incoming, before, left, i);
      }
      got, outcomes := got + more, outcomes + [o];
      var dead := s.broken.Some? || s.writeInProgress || s.payloadInProgress;
      StaysDeadSnoc(moments, Moment(dead, pipe.written, s.broken));
      moments := moments + [Moment(dead, pipe.written, s.broken)];
    }
    assert ops[..|ops|] == ops;
    s.Account();
    if patient && !room {
      s.NotAllReturned();
    }
    trace := Trace(outcomes, moments, got);
    log, torn, sends := s.log, s.torn, s.sends;
  }

  lemma StartsAlive()
    ensures StaysDead([])
  {
  }
}
