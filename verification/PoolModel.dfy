/** What a runspace pool does, as functions of its state and of the world around it. */
module PoolModel {
  import opened Common
  import opened Text
  import opened Values
  import opened Secrets
  import opened HostCalls
  import opened Inbox
  import C = Crypto
  import F = Fragments
  import M = Messages

  /**
   * The world around a pool: the CLIXML decoder, the host, RSA, whether the transport accepts the `n`-th message it
   * is given, and what the `n`-th key generation yields.
   */
  datatype Outside = Outside(
    parse: Clixml, unwrap: Unwrap, host: Host,
    transport: nat -> bool, generate: nat -> Option<ClientKey>, blob: ClientKey -> string,
    rpid: Guid, completedText: string)

  /** A message the transport accepted, with the object id of its fragments. */
  datatype Sent = Sent(id: nat, messageType: M.MessageType, pid: Guid, body: Value)

  /** What was done, in order: answers sent and lost, and what happened to the key. */
  datatype Deed =
    | Sends(answer: Answer)
    | Loses(debt: Debt)
    | Starts(pair: ClientKey)
    | Gives(key: C.Cipher)
    | Hears(m: M.Message)
    | Grants(m: M.Message)
    | Declines(m: M.Message)

  /** The sending side of a pool. `tries` counts the messages it tried to send, `generated` the key generations. */
  datatype State = State(
    nextId: nat, tries: nat, sent: seq<Sent>,
    key: Option<C.Cipher>, pair: Option<ClientKey>, generated: nat,
    parked: seq<Parked>, asked: nat, deeds: seq<Deed>)

  /** How a step ended. */
  type Verdict = Result<(), PoolError>

  function Log(s: State, d: Deed): State {
    s.(deeds := s.deeds + [d])
  }

  // ---- Sending ----

  /** `take_object_id`, then the transport: the last id is never handed out, a refused message has spent its id. */
  function Attempt(o: Outside, s: State, t: M.MessageType, pid: Guid, body: Value): (State, Verdict) {
    if s.nextId >= U64_MAX then (s.(tries := s.tries + 1), Err(IdsExhausted))
    else
      var spent := s.(nextId := s.nextId + 1, tries := s.tries + 1);
      if o.transport(s.tries) then (spent.(sent := s.sent + [Sent(s.nextId, t, pid, body)]), Ok(()))
      else (spent, Err(SendFailed))
  }

  function Respond(o: Outside, s: State, a: Answer): (State, Verdict) {
    var (s', r) := Attempt(o, s, a.call.responseType, a.call.pid, AnswerBody(a));
    (if r.Ok? then Log(s', Sends(a)) else s', r)
  }

  // ---- The session key ----

  /** `set_session_key`: an exchange in flight is abandoned. */
  function SetKey(s: State, key: C.Cipher): State {
    Log(s.(key := Some(key), pair := None), Gives(key))
  }

  function KeyBody(blob: string): Value {
    Object([], None, [Prop("PublicKey", Textual(Str, blob))])
  }

  /** `start_exchange`, with a fresh pair. */
  function Exchange(o: Outside, s: State): (State, Verdict) {
    var asked := s.(generated := s.generated + 1);
    match o.generate(s.generated)
    case None => (asked, Err(NoKeyPair))
    case Some(pair) =>
      var (s', r) := Attempt(o, asked, M.PublicKey, NIL, KeyBody(o.blob(pair)));
      (if r.Ok? then Log(s'.(pair := Some(pair)), Starts(pair)) else s', r)
  }

  function ExchangeUnlessPending(o: Outside, s: State): (State, Verdict) {
    if s.pair.Some? then (s, Ok(())) else Exchange(o, s)
  }

  /** `flush_deferred_host_responses`: oldest first, each removed once it is sent. */
  function Flush(o: Outside, s: State): (State, Verdict)
    decreases |s.parked|
  {
    if s.key.None? || s.parked == [] then (s, Ok(()))
    else
      var (s', r) := Respond(o, s, Answered(s.parked[0].call, s.parked[0].value, s.key));
      if r.Err? then (s', r) else Flush(o, s'.(parked := s.parked[1..]))
  }

  /** `fail_deferred_host_responses`: an error for every parked call, sent or not. */
  function GiveUp(o: Outside, s: State): State
    decreases |s.parked|
  {
    if s.parked == [] then s
    else
      var a := GivenUp(s.parked[0].call, s.parked[0].value);
      var (s', r) := Respond(o, s.(parked := s.parked[1..]), a);
      GiveUp(o, if r.Ok? then s' else Log(s', Loses(DebtOf(a))))
  }

  /** `accept_encrypted_session_key`: the pair is used up, whatever comes of the reply. */
  function AcceptKey(o: Outside, s: State, m: M.Message): (State, Verdict) {
    var heard := Log(s.(pair := None), Hears(m));
    if s.pair.None? then (heard, Ok(()))
    else
      match SessionKeyOf(o.parse, o.unwrap, m, s.pair.value)
      case None => (GiveUp(o, heard), Err(BadSessionKey))
      case Some(key) => Flush(o, heard.(key := Some(key)))
  }

  /** A request of the server for a key. */
  function GrantRequest(o: Outside, s: State, m: M.Message): (State, Verdict) {
    var (s', r) := ExchangeUnlessPending(o, s);
    (Log(s', if r.Ok? then Grants(m) else Declines(m)), r)
  }

  // ---- Host calls ----

  /** An answer that goes out at once, or is lost. */
  function AnswerNow(o: Outside, s: State, a: Answer): (State, Verdict) {
    var (s', r) := Respond(o, s, a);
    (if r.Ok? then s' else Log(s', Loses(DebtOf(a))), r)
  }

  /** A secret without a key: the exchange is started, and the answer parked behind it. */
  function Park(o: Outside, s: State, call: Call, value: Value): (State, Verdict) {
    var (s', r) := ExchangeUnlessPending(o, s);
    (if r.Ok? then s'.(parked := s'.parked + [Parked(call, value)]) else Log(s', Loses(Debt(call, Gave(value)))), r)
  }

  /** What becomes of the host's word on a call. */
  function Settle(o: Outside, s: State, call: Call, result: HostResult): (State, Verdict) {
    match result
    case Void => (s, Ok(()))
    case Threw(why) => AnswerNow(o, s, Excused(call, why))
    case Gave(value) =>
      if ContainsSecret(value) && s.key.None? then Park(o, s, call, value)
      else AnswerNow(o, s, Answered(call, value, s.key))
  }

  /** `handle_host_call`. */
  function HandleCall(o: Outside, s: State, m: M.Message): (State, Verdict) {
    match CallOf(o.parse, m)
    case Err(e) => (s, Err(e))
    case Ok(call) => Settle(o, s.(asked := s.asked + 1), call, o.host(s.asked, m))
  }

  /** One message, dealt with as its type asks. */
  function Deal(o: Outside, s: State, m: M.Message): (State, Verdict) {
    if IsHostCall(m.messageType) then HandleCall(o, s, m)
    else if m.messageType.EncryptedSessionKey? then AcceptKey(o, s, m)
    else if m.messageType.PublicKeyRequest? then GrantRequest(o, s, m)
    else (s, Ok(()))
  }

  // ---- Reading ----

  /**
   * A whole pool. `arrived` is every message decoded so far, `taken` those taken off the queue, `kept` those whose
   * handling did not fail, `handed` those returned to readers, `fed` the chunks given to the reassembler.
   */
  datatype Pool = Pool(
    state: State, pending: seq<M.Message>, incoming: seq<Incoming>, buffer: F.State,
    arrived: seq<M.Message>, taken: seq<M.Message>, kept: seq<M.Message>, handed: seq<M.Message>, fed: seq<seq<byte>>)

  /** The message a drained transport is taken to have sent. */
  function Finished(o: Outside): M.Message {
    M.Message(M.Client, M.PipelineState, o.rpid, NIL, o.completedText)
  }

  predicate Idle(buffer: F.State) {
    buffer.buffer == [] && buffer.table.inFlight == map[]
  }

  /** The oldest queued message: dealt with, and handed on unless it is a host call. */
  function Take(o: Outside, p: Pool): (Pool, Result<Option<M.Message>, PoolError>)
    requires p.pending != []
  {
    var m := p.pending[|p.pending| - 1];
    var (s, r) := Deal(o, p.state, m);
    var popped := p.(state := s, pending := p.pending[..|p.pending| - 1], taken := p.taken + [m]);
    if r.Err? then (popped, Err(r.error))
    else if IsHostCall(m.messageType) then (popped.(kept := p.kept + [m]), Ok(None))
    else (popped.(kept := p.kept + [m], handed := p.handed + [m]), Ok(Some(m)))
  }

  /** A chunk for the reassembler; its messages are queued newest first, so that the oldest is popped next. */
  function Queue(p: Pool, bytes: seq<byte>): (Pool, Verdict) {
    var one := F.Feed(p.buffer, bytes);
    var fed := p.(buffer := one.state, fed := p.fed + [bytes]);
    if one.result.Err? then (fed, Err(BadFragment))
    else
      match DecodeAll(one.result.value)
      case None => (fed, Err(BadMessage))
      case Some(ms) => (fed.(pending := Reversed(ms), arrived := p.arrived + ms), Ok(()))
  }

  /** One read of the transport, with nothing queued. */
  function Receive(o: Outside, p: Pool): (Pool, Result<Option<M.Message>, PoolError>)
    requires p.incoming != []
  {
    var next := p.incoming[0];
    var p' := p.(incoming := p.incoming[1..]);
    if next.Failure? then (p', Err(ReceiveFailed))
    else if next.bytes == [] && Idle(p.buffer) then (p', Ok(Some(Finished(o))))
    else
      var (q, r) := Queue(p', next.bytes);
      (q, if r.Ok? then Ok(None) else Err(r.error))
  }

  /** `next_message`: the next message for a reader, everything else dealt with on the way. */
  function Next(o: Outside, p: Pool): (Pool, Result<M.Message, PoolError>)
    decreases |p.incoming|, |p.pending|, 1
  {
    var (s, r) := Flush(o, p.state);
    if r.Err? then (p.(state := s), Err(r.error)) else Turn(o, p.(state := s))
  }

  /** The rest of a turn of its loop. */
  function Turn(o: Outside, p: Pool): (Pool, Result<M.Message, PoolError>)
    decreases |p.incoming|, |p.pending|, 0
  {
    if p.pending != [] then
      var (q, r) := Take(o, p);
      if r.Err? then (q, Err(r.error)) else if r.value.Some? then (q, Ok(r.value.value)) else Next(o, q)
    else if p.incoming == [] then (p, Err(NothingLeft))
    else
      var (q, r) := Receive(o, p);
      if r.Err? then (q, Err(r.error)) else if r.value.Some? then (q, Ok(r.value.value)) else Next(o, q)
  }

  // ---- Whole runs ----

  /** A new pool whose object ids count from `first`. */
  function Begin(first: nat, script: seq<Incoming>): Pool {
    Pool(State(first, 0, [], None, None, 0, [], 0, []), [], script, F.IDLE, [], [], [], [], [])
  }

  /** What is asked of a pool: a message for a reader, a key given or asked for, another message to send. */
  datatype Op =
    | ReadOne
    | GiveKey(key: C.Cipher)
    | AskKey
    | SendOther(messageType: M.MessageType, pid: Guid, body: Value)

  function Apply(o: Outside, p: Pool, op: Op): Pool {
    match op
    case ReadOne => Next(o, p).0
    case GiveKey(key) => p.(state := SetKey(p.state, key))
    case AskKey => p.(state := ExchangeUnlessPending(o, p.state).0)
    case SendOther(t, pid, body) => p.(state := Attempt(o, p.state, t, pid, body).0)
  }

  function After(o: Outside, p: Pool, ops: seq<Op>): Pool {
    if ops == [] then p else Apply(o, After(o, p, ops[..|ops| - 1]), ops[|ops| - 1])
  }
}
