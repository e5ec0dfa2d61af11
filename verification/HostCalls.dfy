/** Host calls and the answers to them, and the reply to a session-key exchange. */
module HostCalls {
  import opened Common
  import opened Text
  import opened Values
  import opened Secrets
  import Base64
  import C = Crypto
  import M = Messages

  /** A client RSA key pair, known by its number. */
  type ClientKey = nat

  /** The host: what it makes of the `n`-th call it is asked. */
  type Host = (nat, M.Message) -> HostResult

  /** `decrypt_session_key` and `SessionKey::from_bytes`: the cipher an encrypted session key stands for. */
  type Unwrap = (ClientKey, seq<byte>) -> Option<C.Cipher>

  datatype PoolError =
    | IdsExhausted
    | SendFailed
    | ReceiveFailed
    | NothingLeft
    | BadFragment
    | BadMessage
    | BadClixml
    | BadHostCall
    | BadSessionKey
    | NoKeyPair

  datatype Call = Call(responseType: M.MessageType, pid: Guid, ci: int, mi: int)

  /** What the host made of a call. */
  datatype HostResult = Void | Gave(value: Value) | Threw(why: string)

  /** A call that wants an answer, with what the host made of it. */
  datatype Debt = Debt(call: Call, result: HostResult)

  /** An answer waiting for the session key. */
  datatype Parked = Parked(call: Call, value: Value)

  /**
   * An answer: a value, with the key held at that moment; the host's error; or an error in the place of a parked
   * value whose key never came.
   */
  datatype Answer =
    | Answered(call: Call, plain: Value, key: Option<C.Cipher>)
    | Excused(call: Call, why: string)
    | GivenUp(call: Call, value: Value)

  function DebtOf(a: Answer): Debt {
    match a
    case Answered(call, plain, _) => Debt(call, Gave(plain))
    case Excused(call, why) => Debt(call, Threw(why))
    case GivenUp(call, value) => Debt(call, Gave(value))
  }

  predicate IsReply(t: M.MessageType) {
    t.RunspacePoolHostResponse? || t.PipelineHostResponse?
  }

  /** `build_host_response_body`. */
  function ResponseBody(c: Call, v: Value): Value {
    Object([], None, [Prop("ci", Int(I64, c.ci)), Prop("mi", Int(I64, c.mi)), Prop("mr", v)])
  }

  /** `build_host_response_error_body`. */
  function ErrorBody(c: Call, why: string): Value {
    Object([], None, [Prop("ci", Int(I64, c.ci)), Prop("mi", Int(I64, c.mi)),
                      Prop("me", Object(["System.Exception"], None, [Prop("Message", Textual(Str, why))]))])
  }

  /** Never a plaintext secret when there is a key. */
  function Outgoing(plain: Value, key: Option<C.Cipher>): Value {
    if ContainsSecret(plain) && key.Some? then EncryptSecrets(plain, key.value) else plain
  }

  const NO_KEY: string := "the SecureString could not be sent"

  function AnswerBody(a: Answer): Value {
    match a
    case Answered(call, plain, key) => ResponseBody(call, Outgoing(plain, key))
    case Excused(call, why) => ErrorBody(call, why)
    case GivenUp(call, _) => ErrorBody(call, NO_KEY)
  }

  datatype Reply = Reply(messageType: M.MessageType, pid: Guid, body: Value)

  function ReplyOf(a: Answer): Reply {
    Reply(a.call.responseType, a.call.pid, AnswerBody(a))
  }

  /** `PsValue::as_i64`. */
  function AsI64(v: Value): Option<int> {
    if v.Int? && v.i <= 0x7FFF_FFFF_FFFF_FFFF then Some(v.i) else None
  }

  function MethodId(v: Option<Value>): Option<int> {
    match v
    case None => None
    case Some(Object(_, _, props)) =>
      (match Find(props, "_value") case Some(inner) => AsI64(inner) case None => None)
    case Some(plain) => AsI64(plain)
  }

  /** The call in a host-call message: its ids, and where its answer goes. */
  function CallOf(parse: Clixml, m: M.Message): Result<Call, PoolError> {
    match parse(m.data)
    case None => Err(BadClixml)
    case Some(vs) =>
      if vs == [] || !vs[0].Object? then Err(BadHostCall)
      else
        var ci := match Find(vs[0].props, "ci") case Some(v) => AsI64(v) case None => None;
        var mi := MethodId(Find(vs[0].props, "mi"));
        if ci.None? || mi.None? then Err(BadHostCall)
        else
          Ok(Call(if m.messageType.RunspacePoolHostCall? then M.RunspacePoolHostResponse else M.PipelineHostResponse,
                  m.pid, ci.value, mi.value))
  }

  lemma CallsAreReplied(parse: Clixml, m: M.Message)
    ensures CallOf(parse, m).Ok? ==> IsReply(CallOf(parse, m).value.responseType)
  {
    hide Find, MethodId;
  }

  function AsText(v: Value): Option<string> {
    match v
    case Textual(_, s) => Some(s)
    case Decimal(s) => Some(s)
    case _ => None
  }

  function EncryptedKey(vs: seq<Value>): Option<string> {
    if vs == [] then None
    else if vs[0].Object? then
      match Find(vs[0].props, "EncryptedSessionKey")
      case None => EncryptedKey(vs[1..])
      case Some(v) => if AsText(v).Some? then AsText(v) else EncryptedKey(vs[1..])
    else EncryptedKey(vs[1..])
  }

  /** `take_session_key`. */
  function SessionKeyOf(parse: Clixml, unwrap: Unwrap, m: M.Message, pair: ClientKey): Option<C.Cipher> {
    match parse(m.data)
    case None => None
    case Some(vs) =>
      match EncryptedKey(vs)
      case None => None
      case Some(text) =>
        match Base64.Decode(text)
        case None => None
        case Some(bytes) => unwrap(pair, bytes)
  }

  // ---- What a call asks and what an answer says, by the names on the wire ----

  /** The number `n` stands there. */
  predicate IsNumber(v: Option<Value>, n: int) {
    v.Some? && v.value.Int? && v.value.i == n && n <= 0x7FFF_FFFF_FFFF_FFFF
  }

  /** A method id stands there: the number itself, or wrapped in an object as an enumeration is. */
  predicate IsMethodId(v: Option<Value>, n: int) {
    IsNumber(v, n) || (v.Some? && v.value.Object? && IsNumber(Find(v.value.props, "_value"), n))
  }

  /** The message is a call with this id, of this method. */
  predicate Asks(parse: Clixml, m: M.Message, ci: int, mi: int) {
    && parse(m.data).Some? && parse(m.data).value != [] && parse(m.data).value[0].Object?
    && IsNumber(Find(parse(m.data).value[0].props, "ci"), ci) && IsMethodId(Find(parse(m.data).value[0].props, "mi"), mi)
  }

  /** The call of a message is what it asks, to be answered in kind; a message that asks nothing is refused. */
  lemma CallSays(parse: Clixml, m: M.Message)
    ensures CallOf(parse, m).Ok? ==>
      var call := CallOf(parse, m).value;
      && Asks(parse, m, call.ci, call.mi) && call.pid == m.pid
      && (m.messageType.RunspacePoolHostCall? ==> call.responseType.RunspacePoolHostResponse?)
      && (m.messageType.PipelineHostCall? ==> call.responseType.PipelineHostResponse?)
    ensures forall ci, mi :: Asks(parse, m, ci, mi) ==> CallOf(parse, m).Ok?
  {
    hide Find;
  }

  /** An error that says `why`. */
  predicate IsError(v: Option<Value>, why: string) {
    && v.Some? && v.value.Object? && v.value.typeNames == ["System.Exception"]
    && Find(v.value.props, "Message") == Some(Textual(Str, why))
  }

  /** The ids of the call, as 64-bit integers. */
  predicate Names(body: Value, ci: int, mi: int) {
    body.Object? && Find(body.props, "ci") == Some(Int(I64, ci)) && Find(body.props, "mi") == Some(Int(I64, mi))
  }

  /** The value that goes out for `given`: itself, or its encryption. */
  predicate StandsFor(w: Value, given: Value, key: Option<C.Cipher>) {
    if ContainsSecret(given) then key.Some? && IsEncryptionOf(w, given, key.value) else w == given
  }

  /** The body answers the host's result: the value under `mr`, or an error under `me`. */
  predicate Says(body: Value, result: HostResult, key: Option<C.Cipher>, givenUp: bool) {
    && body.Object?
    && match result
       case Void => false
       case Threw(why) => Find(body.props, "mr") == None && IsError(Find(body.props, "me"), why)
       case Gave(v) =>
         if givenUp then
           Find(body.props, "mr") == None && IsError(Find(body.props, "me"), "the SecureString could not be sent")
         else
           Find(body.props, "me") == None && Find(body.props, "mr").Some? && StandsFor(Find(body.props, "mr").value, v, key)
  }

  function KeyOf(a: Answer): Option<C.Cipher> {
    if a.Answered? then a.key else None
  }

  /** What an answer says. */
  lemma AnswerSays(a: Answer)
    requires a.Answered? && ContainsSecret(a.plain) ==> a.key.Some?
    ensures Names(AnswerBody(a), a.call.ci, a.call.mi)
    ensures Says(AnswerBody(a), DebtOf(a).result, KeyOf(a), a.GivenUp?)
  {
    hide ContainsSecret, EncryptSecrets, IsEncryptionOf;
    match a
    case Answered(call, plain, key) =>
      if key.Some? {
        EncryptedValue(plain, key.value);
      }
      ResponseSays(call, Outgoing(plain, key));
    case Excused(call, why) => ErrorSays(call, why);
    case GivenUp(call, _) => ErrorSays(call, NO_KEY);
  }

  lemma ResponseSays(c: Call, v: Value)
    ensures var props := ResponseBody(c, v).props;
      && Find(props, "ci") == Some(Int(I64, c.ci)) && Find(props, "mi") == Some(Int(I64, c.mi))
      && Find(props, "mr") == Some(v) && Find(props, "me") == None
  {
    hide Find;
    var props := ResponseBody(c, v).props;
    ShortNames();
    FindAt(props, 0);
    FindAt(props, 1);
    FindAt(props, 2);
    assert Find(props, "me") == None;
  }

  lemma ShortNames()
    ensures Distinct(["ci", "mi", "mr", "me"])
  {
    assert "ci"[0] != "mi"[0] && "ci"[0] != "mr"[0] && "ci"[0] != "me"[0];
    assert "mi"[1] != "mr"[1] && "mi"[1] != "me"[1] && "mr"[1] != "me"[1];
  }

  lemma ErrorSays(c: Call, why: string)
    ensures var props := ErrorBody(c, why).props;
      && Find(props, "ci") == Some(Int(I64, c.ci)) && Find(props, "mi") == Some(Int(I64, c.mi))
      && Find(props, "mr") == None && IsError(Find(props, "me"), why)
  {
    hide Find;
    var props := ErrorBody(c, why).props;
    ShortNames();
    FindAt(props, 0);
    FindAt(props, 1);
    FindAt(props, 2);
    assert Find(props, "mr") == None;
    FindAt(props[2].value.props, 0);
  }

  /** The reply to an exchange carries the key: as base64, under its name, in the first object that has a text there. */
  lemma {:induction false} KeyReplySays(vs: seq<Value>) returns (i: nat)
    requires EncryptedKey(vs).Some?
    ensures i < |vs| && vs[i].Object? && Find(vs[i].props, "EncryptedSessionKey").Some?
    ensures AsText(Find(vs[i].props, "EncryptedSessionKey").value) == EncryptedKey(vs)
    ensures forall j :: 0 <= j < i && vs[j].Object? && Find(vs[j].props, "EncryptedSessionKey").Some? ==>
      AsText(Find(vs[j].props, "EncryptedSessionKey").value).None?
  {
    hide Find, AsText;
    i := 0;
    if !(vs[0].Object? && Find(vs[0].props, "EncryptedSessionKey").Some?
         && AsText(Find(vs[0].props, "EncryptedSessionKey").value).Some?) {
      var j := KeyReplySays(vs[1..]);
      i := j + 1;
      assert forall k :: 1 <= k < i ==> vs[k] == vs[1..][k - 1];
    }
  }

  /** The session key is what the awaited pair makes of those bytes. */
  lemma SessionKeySays(parse: Clixml, unwrap: Unwrap, m: M.Message, pair: ClientKey) returns (i: nat, bytes: seq<byte>)
    requires SessionKeyOf(parse, unwrap, m, pair).Some?
    ensures parse(m.data).Some? && i < |parse(m.data).value| && parse(m.data).value[i].Object?
    ensures var v := Find(parse(m.data).value[i].props, "EncryptedSessionKey");
      v.Some? && AsText(v.value).Some? && Base64.Decode(AsText(v.value).value) == Some(bytes)
    ensures SessionKeyOf(parse, unwrap, m, pair) == unwrap(pair, bytes)
  {
    hide Find, AsText, Base64.Decode;
    i := KeyReplySays(parse(m.data).value);
    bytes := Base64.Decode(EncryptedKey(parse(m.data).value).value).value;
  }
}
