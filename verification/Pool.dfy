/** The runspace pool driver: its methods compute the model, loop by loop. */
module Pool {
  import opened Common
  import opened Text
  import opened Values
  import opened Secrets
  import opened HostCalls
  import opened Inbox
  import opened PoolModel
  import opened PoolRuns
  import C = Crypto
  import F = Fragments
  import M = Messages

  class RunspacePool {
    const outside: Outside
    const reassembler: F.Reassembler
    var incoming: seq<Incoming>
    var nextObjectId: nat
    var sessionKey: Option<C.Cipher>
    var pendingClientKey: Option<ClientKey>
    var deferred: seq<Parked>
    var pending: seq<M.Message>
    /** What the world has seen of the pool: messages accepted and tried, calls asked, keys generated. */
    var sent: seq<Sent>
    var tries: nat
    var asked: nat
    var generated: nat

    ghost var deeds: seq<Deed>
    ghost var arrived: seq<M.Message>
    ghost var taken: seq<M.Message>
    ghost var kept: seq<M.Message>
    ghost var handed: seq<M.Message>
    ghost var fed: seq<seq<byte>>

    ghost function Now(): State
      reads this
    {
      State(nextObjectId, tries, sent, sessionKey, pendingClientKey, generated, deferred, asked, deeds)
    }

    ghost function Whole(): PoolModel.Pool
      reads this, reassembler
    {
      PoolModel.Pool(Now(), pending, incoming, reassembler.Abstract(), arrived, taken, kept, handed, fed)
    }

    constructor (outside: Outside, script: seq<Incoming>, firstId: nat)
      ensures Whole() == Begin(firstId, script) && this.outside == outside && fresh(reassembler)
    {
      this.outside := outside;
      reassembler := new F.Reassembler();
      incoming, nextObjectId, sent, tries, asked, generated := script, firstId, [], 0, 0, 0;
      sessionKey, pendingClientKey, deferred, pending := None, None, [], [];
      deeds, arrived, taken, kept, handed, fed := [], [], [], [], [], [];
    }

    /** What the transport will bring from now on. */
    method Attach(script: seq<Incoming>)
      modifies `incoming
      ensures Whole() == old(Whole()).(incoming := script)
    {
      incoming := script;
    }

    // ---- Sending ----

    /** `take_object_id`: the last id is never handed out. */
    method TakeObjectId() returns (r: Result<nat, PoolError>)
      modifies `nextObjectId
      ensures r == if old(nextObjectId) >= U64_MAX then Err(IdsExhausted) else Ok(old(nextObjectId))
      ensures nextObjectId == old(nextObjectId) + if r.Ok? then 1 else 0
    {
      if nextObjectId >= U64_MAX {
        return Err(IdsExhausted);
      }
      r := Ok(nextObjectId);
      nextObjectId := nextObjectId + 1;
    }

    /** `send_psrp_message`, `send_pipeline_message`. */
    method SendMessage(t: M.MessageType, pid: Guid, body: Value) returns (r: Verdict)
      modifies `nextObjectId, `tries, `sent
      ensures (Now(), r) == Attempt(outside, old(Now()), t, pid, body)
    {
      var id := TakeObjectId();
      tries := tries + 1;
      if id.Err? {
        return Err(id.error);
      }
      if !outside.transport(tries - 1) {
        return Err(SendFailed);
      }
      sent := sent + [Sent(id.value, t, pid, body)];
      return Ok(());
    }

    /** A host response. */
    method SendAnswer(a: Answer) returns (r: Verdict)
      modifies `nextObjectId, `tries, `sent, `deeds
      ensures (Now(), r) == Respond(outside, old(Now()), a)
    {
      hide AnswerBody, Attempt;
      r := SendMessage(a.call.responseType, a.call.pid, AnswerBody(a));
      if r.Ok? {
        deeds := deeds + [Sends(a)];
      }
    }

    // ---- The session key ----

    method SetSessionKey(key: C.Cipher)
      modifies `sessionKey, `pendingClientKey, `deeds
      ensures Now() == SetKey(old(Now()), key)
    {
      sessionKey, pendingClientKey := Some(key), None;
      deeds := deeds + [Gives(key)];
    }

    method StartExchange() returns (r: Verdict)
      modifies `nextObjectId, `tries, `sent, `pendingClientKey, `generated, `deeds
      ensures (Now(), r) == Exchange(outside, old(Now()))
    {
      hide Attempt;
      var pair := outside.generate(generated);
      generated := generated + 1;
      match pair {
        case None =>
          return Err(NoKeyPair);
        case Some(k) =>
          r := SendMessage(M.PublicKey, NIL, KeyBody(outside.blob(k)));
          if r.Ok? {
            pendingClientKey := Some(k);
            deeds := deeds + [Starts(k)];
          }
      }
    }

    method StartExchangeUnlessPending() returns (r: Verdict)
      modifies `nextObjectId, `tries, `sent, `pendingClientKey, `generated, `deeds
      ensures (Now(), r) == ExchangeUnlessPending(outside, old(Now()))
    {
      hide Exchange;
      if pendingClientKey.Some? {
        return Ok(());
      }
      r := StartExchange();
    }

    method FlushDeferred() returns (r: Verdict)
      modifies `nextObjectId, `tries, `sent, `deferred, `deeds
      ensures (Now(), r) == Flush(outside, old(Now()))
    {
      hide Respond;
      if sessionKey.None? {
        return Ok(());
      }
      while deferred != []
        invariant sessionKey.Some?
        invariant Flush(outside, Now()) == Flush(outside, old(Now()))
        decreases |deferred|
      {
        var a := Answered(deferred[0].call, deferred[0].value, sessionKey);
        RespondParks(outside, Now(), a);
        var one := SendAnswer(a);
        if one.Err? {
          return one;
        }
        deferred := deferred[1..];
      }
      return Ok(());
    }

    method FailDeferred()
      modifies `nextObjectId, `tries, `sent, `deferred, `deeds
      ensures Now() == GiveUp(outside, old(Now()))
    {
      hide Respond;
      while deferred != []
        invariant GiveUp(outside, Now()) == GiveUp(outside, old(Now()))
        decreases |deferred|
      {
        var a := GivenUp(deferred[0].call, deferred[0].value);
        deferred := deferred[1..];
        RespondParks(outside, Now(), a);
        var r := SendAnswer(a);
        if r.Err? {
          deeds := deeds + [Loses(DebtOf(a))];
        }
      }
    }

    method AcceptSessionKey(m: M.Message) returns (r: Verdict)
      modifies `nextObjectId, `tries, `sent, `sessionKey, `pendingClientKey, `deferred, `deeds
      ensures (Now(), r) == AcceptKey(outside, old(Now()), m)
    {
      hide Flush, GiveUp, SessionKeyOf;
      deeds := deeds + [Hears(m)];
      if pendingClientKey.None? {
        return Ok(());
      }
      var key := SessionKeyOf(outside.parse, outside.unwrap, m, pendingClientKey.value);
      pendingClientKey := None;
      match key {
        case None =>
          FailDeferred();
          return Err(BadSessionKey);
        case Some(k) =>
          sessionKey := Some(k);
          r := FlushDeferred();
      }
    }

    method AnswerRequest(m: M.Message) returns (r: Verdict)
      modifies `nextObjectId, `tries, `sent, `pendingClientKey, `generated, `deeds
      ensures (Now(), r) == GrantRequest(outside, old(Now()), m)
    {
      hide ExchangeUnlessPending;
      r := StartExchangeUnlessPending();
      deeds := deeds + [if r.Ok? then Grants(m) else Declines(m)];
    }

    // ---- Host calls ----

    method AnswerCall(a: Answer) returns (r: Verdict)
      modifies `nextObjectId, `tries, `sent, `deeds
      ensures (Now(), r) == AnswerNow(outside, old(Now()), a)
    {
      hide Respond;
      r := SendAnswer(a);
      if r.Err? {
        deeds := deeds + [Loses(DebtOf(a))];
      }
    }

    method ParkAnswer(call: Call, value: Value) returns (r: Verdict)
      modifies `nextObjectId, `tries, `sent, `pendingClientKey, `generated, `deferred, `deeds
      ensures (Now(), r) == Park(outside, old(Now()), call, value)
    {
      hide ExchangeUnlessPending;
      r := StartExchangeUnlessPending();
      if r.Ok? {
        deferred := deferred + [Parked(call, value)];
      } else {
        deeds := deeds + [Loses(Debt(call, Gave(value)))];
      }
    }

    /** `handle_host_call`: nothing for a void method, else one answer, sent or parked. */
    method HandleHostCall(m: M.Message) returns (r: Verdict)
      modifies `nextObjectId, `tries, `sent, `pendingClientKey, `generated, `deferred, `asked, `deeds
      ensures (Now(), r) == HandleCall(outside, old(Now()), m)
    {
      hide AnswerNow, Park, ContainsSecret, CallOf;
      var call :- CallOf(outside.parse, m);
      var result := outside.host(asked, m);
      asked := asked + 1;
      match result {
        case Void =>
          return Ok(());
        case Threw(why) =>
          r := AnswerCall(Excused(call, why));
        case Gave(value) =>
          if ContainsSecret(value) && sessionKey.None? {
            r := ParkAnswer(call, value);
          } else {
            r := AnswerCall(Answered(call, value, sessionKey));
          }
      }
    }

    // ---- Reading ----

    method Dispatch(m: M.Message) returns (r: Verdict)
      modifies `nextObjectId, `tries, `sent, `sessionKey, `pendingClientKey, `generated, `deferred, `asked, `deeds
      ensures (Now(), r) == Deal(outside, old(Now()), m)
    {
      hide HandleCall, AcceptKey, GrantRequest;
      match m.messageType {
        case RunspacePoolHostCall =>
          r := HandleHostCall(m);
        case PipelineHostCall =>
          r := HandleHostCall(m);
        case EncryptedSessionKey =>
          r := AcceptSessionKey(m);
        case PublicKeyRequest =>
          r := AnswerRequest(m);
        case _ =>
          r := Ok(());
      }
    }

    /** Dealt with and noted. */
    method DealWith(m: M.Message) returns (r: Verdict)
      modifies this
      ensures r == Deal(outside, old(Now()), m).1
      ensures Whole() == old(Whole()).(state := Deal(outside, old(Now()), m).0, taken := old(taken) + [m])
    {
      hide Deal;
      r := Dispatch(m);
      taken := taken + [m];
    }

    /** The oldest queued message. */
    method TakeNext() returns (r: Result<Option<M.Message>, PoolError>)
      requires pending != []
      modifies this
      ensures (Whole(), r) == Take(outside, old(Whole()))
    {
      hide Deal, IsHostCall;
      var m := pending[|pending| - 1];
      pending := pending[..|pending| - 1];
      var dealt := DealWith(m);
      if dealt.Err? {
        return Err(dealt.error);
      }
      kept := kept + [m];
      if IsHostCall(m.messageType) {
        return Ok(None);
      }
      handed := handed + [m];
      return Ok(Some(m));
    }

    /** A chunk's messages, pushed newest first so that the oldest is popped next. */
    method QueueChunk(bytes: seq<byte>) returns (r: Verdict)
      modifies `pending, `arrived, `fed, reassembler
      ensures (Whole(), r) == Queue(old(Whole()), bytes)
    {
      hide F.Feed, DecodeAll, Reversed;
      fed := fed + [bytes];
      var completed := reassembler.FeedBytes(bytes);
      if completed.Err? {
        return Err(BadFragment);
      }
      var decoded := DecodeLoop(completed.value);
      match decoded {
        case None =>
          return Err(BadMessage);
        case Some(ms) =>
          pending := Reversed(ms);
          arrived := arrived + ms;
          return Ok(());
      }
    }

    /** One read of the transport, with nothing queued. */
    method ReceiveChunk() returns (r: Result<Option<M.Message>, PoolError>)
      requires incoming != []
      modifies `incoming, `pending, `arrived, `fed, reassembler
      ensures (Whole(), r) == Receive(outside, old(Whole()))
    {
      hide Queue;
      var next := incoming[0];
      incoming := incoming[1..];
      if next.Failure? {
        return Err(ReceiveFailed);
      }
      if next.bytes == [] && reassembler.IsIdle() {
        return Ok(Some(Finished(outside)));
      }
      var queued := QueueChunk(next.bytes);
      return if queued.Ok? then Ok(None) else Err(queued.error);
    }

    /** `next_message`. */
    method NextMessage() returns (r: Result<M.Message, PoolError>)
      modifies this, reassembler
      ensures (Whole(), r) == Next(outside, old(Whole()))
    {
      hide Flush, Take, Receive;
      while true
        invariant Next(outside, Whole()) == Next(outside, old(Whole()))
        decreases |incoming|, |pending|
      {
        ghost var before := Whole();
        if deferred != [] && sessionKey.Some? {
          var flushed := FlushDeferred();
          if flushed.Err? {
            return Err(flushed.error);
          }
        } else {
          NothingToFlush(outside, Now());
        }
        assert Next(outside, before) == Turn(outside, Whole());
        if pending != [] {
          TakeShrinks(outside, Whole());
          var mine := TakeNext();
          if mine.Err? {
            return Err(mine.error);
          }
          if mine.value.Some? {
            return Ok(mine.value.value);
          }
        } else {
          if incoming == [] {
            return Err(NothingLeft);
          }
          ReceiveShrinks(outside, Whole());
          var read := ReceiveChunk();
          if read.Err? {
            return Err(read.error);
          }
          if read.value.Some? {
            return Ok(read.value.value);
          }
        }
      }
    }
  }

  /** One operation of a caller. */
  method Serve(pool: RunspacePool, op: Op)
    modifies pool, pool.reassembler
    ensures pool.Whole() == Apply(pool.outside, old(pool.Whole()), op)
  {
    hide Next, SetKey, ExchangeUnlessPending, Attempt;
    match op
    case ReadOne =>
      var r := pool.NextMessage();
    case GiveKey(key) =>
      pool.SetSessionKey(key);
    case AskKey =>
      var r := pool.StartExchangeUnlessPending();
    case SendOther(t, pid, body) =>
      var r := pool.SendMessage(t, pid, body);
  }

  /** A whole run, in any world: the pool ends where the model says, and the model is sound. */
  method RunPool(outside: Outside, firstId: nat, script: seq<Incoming>, ops: seq<Op>) returns (pool: RunspacePool)
    requires firstId <= U64_MAX && forall i :: 0 <= i < |ops| ==> Proper(ops[i])
    ensures fresh(pool) && pool.outside == outside
    ensures pool.Whole() == After(outside, Begin(firstId, script), ops) && Sound(outside, firstId, pool.Whole())
  {
    hide Apply, Sound, Begin;
    pool := new RunspacePool(outside, script, firstId);
    for i := 0 to |ops|
      invariant fresh(pool) && fresh(pool.reassembler) && pool.outside == outside
      invariant pool.Whole() == After(outside, Begin(firstId, script), ops[..i])
    {
      assert ops[..i + 1][..i] == ops[..i];
      Serve(pool, ops[i]);
    }
    assert ops[..|ops|] == ops;
    EveryRunIsSound(outside, firstId, script, ops);
  }

  /** Reading until nothing is left: every plain message comes out once, in wire order. */
  method ReadAll(pool: RunspacePool) returns (got: seq<M.Message>, end: PoolError)
    requires pool.deferred == [] && Coming(pool.Whole()).Some? && AllPlain(Coming(pool.Whole()).value)
    modifies pool, pool.reassembler
    ensures got == Coming(old(pool.Whole())).value && end == NothingLeft && pool.Now() == old(pool.Now())
  {
    hide Upcoming, Plain, Next;
    ghost var all := Coming(pool.Whole()).value;
    got := [];
    while true
      invariant pool.deferred == [] && pool.Now() == old(pool.Now()) && Coming(pool.Whole()).Some?
      invariant got + Coming(pool.Whole()).value == all && AllPlain(Coming(pool.Whole()).value)
      decreases |Coming(pool.Whole()).value|
    {
      NextOfPlain(pool.outside, pool.Whole());
      var r := pool.NextMessage();
      if r.Err? {
        return got, r.error;
      }
      got := got + [r.value];
    }
  }

  lemma TakeShrinks(o: Outside, p: PoolModel.Pool)
    requires p.pending != []
    ensures Take(o, p).0.pending == p.pending[..|p.pending| - 1] && Take(o, p).0.incoming == p.incoming
  {
    hide Deal;
  }

  lemma ReceiveShrinks(o: Outside, p: PoolModel.Pool)
    requires p.incoming != []
    ensures Receive(o, p).0.incoming == p.incoming[1..]
  {
    hide F.Feed, DecodeAll, Reversed;
  }
}
