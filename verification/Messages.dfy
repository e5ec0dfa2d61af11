/** PSRP messages (section 2.2.1 of MS-PSRP): a 40-byte header, then a UTF-8 body. */
module Messages {
  import opened Common
  import opened Numbers
  import opened Text

  type u32 = n: int | 0 <= n < 0x1_0000_0000

  datatype Destination = Client | Server

  datatype MessageType =
    | SessionCapability | InitRunspacePool | PublicKey | EncryptedSessionKey | PublicKeyRequest
    | SetMaxRunspaces | SetMinRunspaces | RunspaceAvailability | RunspacePoolState | CreatePipeline
    | GetAvailableRunspaces | UserEvent | ApplicationPrivateData | GetCommandMetadata | ConnectRunspacePool
    | RunspacePoolInitData | ResetRunspaceState | CloseRunspacePool | RunspacePoolHostCall
    | RunspacePoolHostResponse | PipelineInput | EndOfPipelineInput | PipelineOutput | ErrorRecord
    | PipelineState | DebugRecord | VerboseRecord | WarningRecord | ProgressRecord | InformationRecord
    | PipelineHostCall | PipelineHostResponse
    | Unknown(code: u32)

  datatype Message = Message(destination: Destination, messageType: MessageType, rpid: Guid, pid: Guid, data: string)

  datatype MessageError = TooShort | UnknownDestination | NotUtf8

  const BOM_BYTES: seq<byte> := [0xEF, 0xBB, 0xBF]

  function ToCode(t: MessageType): u32 {
    match t
    case SessionCapability => 0x1_0002
    case InitRunspacePool => 0x1_0004
    case PublicKey => 0x1_0005
    case EncryptedSessionKey => 0x1_0006
    case PublicKeyRequest => 0x1_0007
    case SetMaxRunspaces => 0x2_1002
    case SetMinRunspaces => 0x2_1003
    case RunspaceAvailability => 0x2_1004
    case RunspacePoolState => 0x2_1005
    case CreatePipeline => 0x2_1006
    case GetAvailableRunspaces => 0x2_1007
    case UserEvent => 0x2_1008
    case ApplicationPrivateData => 0x2_1009
    case GetCommandMetadata => 0x2_100A
    case ConnectRunspacePool => 0x2_100B
    case RunspacePoolInitData => 0x2_100C
    case ResetRunspaceState => 0x2_100D
    case CloseRunspacePool => 0x2_100E
    case RunspacePoolHostCall => 0x2_1100
    case RunspacePoolHostResponse => 0x2_1101
    case PipelineInput => 0x4_1002
    case EndOfPipelineInput => 0x4_1003
    case PipelineOutput => 0x4_1004
    case ErrorRecord => 0x4_1005
    case PipelineState => 0x4_1006
    case DebugRecord => 0x4_1007
    case VerboseRecord => 0x4_1008
    case WarningRecord => 0x4_1009
    case ProgressRecord => 0x4_1010
    case InformationRecord => 0x4_1011
    case PipelineHostCall => 0x4_1100
    case PipelineHostResponse => 0x4_1101
    case Unknown(code) => code
  }

  function FromCode(code: u32): MessageType {
    if code == 0x1_0002 then SessionCapability
    else if code == 0x1_0004 then InitRunspacePool
    else if code == 0x1_0005 then PublicKey
    else if code == 0x1_0006 then EncryptedSessionKey
    else if code == 0x1_0007 then PublicKeyRequest
    else if code == 0x2_1002 then SetMaxRunspaces
    else if code == 0x2_1003 then SetMinRunspaces
    else if code == 0x2_1004 then RunspaceAvailability
    else if code == 0x2_1005 then RunspacePoolState
    else if code == 0x2_1006 then CreatePipeline
    else if code == 0x2_1007 then GetAvailableRunspaces
    else if code == 0x2_1008 then UserEvent
    else if code == 0x2_1009 then ApplicationPrivateData
    else if code == 0x2_100A then GetCommandMetadata
    else if code == 0x2_100B then ConnectRunspacePool
    else if code == 0x2_100C then RunspacePoolInitData
    else if code == 0x2_100D then ResetRunspaceState
    else if code == 0x2_100E then CloseRunspacePool
    else if code == 0x2_1100 then RunspacePoolHostCall
    else if code == 0x2_1101 then RunspacePoolHostResponse
    else if code == 0x4_1002 then PipelineInput
    else if code == 0x4_1003 then EndOfPipelineInput
    else if code == 0x4_1004 then PipelineOutput
    else if code == 0x4_1005 then ErrorRecord
    else if code == 0x4_1006 then PipelineState
    else if code == 0x4_1007 then DebugRecord
    else if code == 0x4_1008 then VerboseRecord
    else if code == 0x4_1009 then WarningRecord
    else if code == 0x4_1010 then ProgressRecord
    else if code == 0x4_1011 then InformationRecord
    else if code == 0x4_1100 then PipelineHostCall
    else if code == 0x4_1101 then PipelineHostResponse
    else Unknown(code)
  }

  /** Not a known code wearing the `Unknown` name. */
  predicate Canonical(t: MessageType) {
    FromCode(ToCode(t)) == t
  }

  /** Every code is a type. */
  lemma CodeRoundTrip(code: u32)
    ensures ToCode(FromCode(code)) == code
  {
  }

  /** The types are the codes, but for known codes called unknown. */
  lemma TypeRoundTrip(t: MessageType)
    ensures Canonical(t) <==> !(t.Unknown? && !FromCode(t.code).Unknown?)
  {
    if t.Unknown? {
      UnknownKeepsCode(t.code);
    } else {
      KnownIsCanonical(t);
    }
  }

  lemma UnknownKeepsCode(code: u32)
    ensures FromCode(code).Unknown? ==> FromCode(code) == Unknown(code)
    ensures ToCode(Unknown(code)) == code
  {
  }

  lemma KnownIsCanonical(t: MessageType)
    requires !t.Unknown?
    ensures Canonical(t)
  {
  }

  /** `Uuid::to_bytes_le`: the first three fields byte-swapped. */
  function GuidBytes(g: Guid): (r: seq<byte>)
    ensures |r| == 16
  {
    [g[3], g[2], g[1], g[0], g[5], g[4], g[7], g[6]] + g[8..]
  }

  function GuidOf(b: seq<byte>): Guid
    requires |b| == 16
  {
    [b[3], b[2], b[1], b[0], b[5], b[4], b[7], b[6]] + b[8..]
  }

  lemma GuidRoundTrip(g: Guid)
    ensures GuidOf(GuidBytes(g)) == g
  {
    assert GuidBytes(g)[8..] == g[8..];
    assert [g[0], g[1], g[2], g[3], g[4], g[5], g[6], g[7]] + g[8..] == g;
  }

  function Header(m: Message): (r: seq<byte>)
    ensures |r| == 40
  {
    ToLe(if m.destination.Client? then 1 else 2, 4) + ToLe(ToCode(m.messageType), 4) + GuidBytes(m.rpid) + GuidBytes(m.pid)
  }

  /** `PsrpMessage::encode`. */
  function Encode(m: Message): seq<byte> {
    Header(m) + Utf8(m.data)
  }

  function StripBomBytes(b: seq<byte>): seq<byte> {
    if |b| >= 3 && b[..3] == BOM_BYTES then b[3..] else b
  }

  /** `PsrpMessage::decode`. */
  function Decode(b: seq<byte>): Result<Message, MessageError> {
    if |b| < 40 then Err(TooShort)
    else
      var destination := FromLe(b[..4]);
      if destination != 1 && destination != 2 then Err(UnknownDestination)
      else
        FromLe32(b[4..8]);
        match FromUtf8(StripBomBytes(b[40..]))
        case None => Err(NotUtf8)
        case Some(data) =>
          Ok(Message(if destination == 1 then Client else Server, FromCode(FromLe(b[4..8])),
                     GuidOf(b[8..24]), GuidOf(b[24..40]), data))
  }

  lemma FromLe32(b: seq<byte>)
    requires |b| == 4
    ensures FromLe(b) < 0x1_0000_0000
  {
    assert FromLe(b[3..]) < 256 && FromLe(b[2..]) < 0x1_0000 && FromLe(b[1..]) < 0x100_0000 by {
      assert b[3..][1..] == [] && b[2..][1..] == b[3..] && b[1..][1..] == b[2..];
    }
  }

  /** The mark is three bytes, and those three bytes are the mark. */
  lemma BomBytes(s: string)
    ensures StripBomBytes(Utf8(s)) == Utf8(StripBom(s))
  {
    hide DecodeChar;
    if s != "" {
      DecodeEncodedChar(s[0], Utf8(s[1..]));
      if s[0] == BOM {
        BomIsThree();
        assert Utf8(s)[3..] == Utf8(s[1..]);
      } else if |Utf8(s)| >= 3 && Utf8(s)[..3] == BOM_BYTES {
        BomIsThree();
        assert Utf8(s) == BOM_BYTES + Utf8(s)[3..];
        DecodeEncodedChar(BOM, Utf8(s)[3..]);
      }
    }
  }

  lemma BomIsThree()
    ensures EncodeChar(BOM) == BOM_BYTES
  {
  }

  lemma HeaderParts(m: Message)
    ensures var b := Encode(m);
      && |b| >= 40 && b[..4] == ToLe(if m.destination.Client? then 1 else 2, 4)
      && b[4..8] == ToLe(ToCode(m.messageType), 4)
      && b[8..24] == GuidBytes(m.rpid) && b[24..40] == GuidBytes(m.pid) && b[40..] == Utf8(m.data)
  {
    hide ToLe, ToCode, GuidBytes, Utf8;
  }

  /** What comes back: the type under its canonical name, and one byte order mark less. */
  function Received(m: Message): Message {
    m.(messageType := FromCode(ToCode(m.messageType)), data := StripBom(m.data))
  }

  /** Decoding an encoded message, whatever the message. */
  lemma MessageRoundTrip(m: Message)
    ensures Decode(Encode(m)) == Ok(Received(m))
  {
    hide ToLe, FromLe, ToCode, FromCode, GuidBytes, GuidOf, Utf8, FromUtf8, StripBom, StripBomBytes, Encode;
    HeaderParts(m);
    Widths();
    FromLeOfToLe(if m.destination.Client? then 1 else 2, 4);
    FromLeOfToLe(ToCode(m.messageType), 4);
    GuidRoundTrip(m.rpid);
    GuidRoundTrip(m.pid);
    BomBytes(m.data);
    FromUtf8OfUtf8(StripBom(m.data));
  }

  /** The round trip is the identity exactly on canonical types and bodies with no leading mark. */
  lemma MessageIdentity(m: Message)
    ensures Decode(Encode(m)) == Ok(m) <==> Canonical(m.messageType) && !(m.data != "" && m.data[0] == BOM)
  {
    hide Encode, Decode, FromCode, ToCode;
    MessageRoundTrip(m);
  }
}
