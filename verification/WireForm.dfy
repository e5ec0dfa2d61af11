/** What the layers put on the wire, byte by byte and letter by letter. */
module WireForm {
  import opened Common
  import opened Numbers
  import opened Text
  import opened Escapes
  import Base64
  import C = Crypto
  import F = Fragments
  import G = Glob
  import L = Lines
  import M = Messages
  import P = Packets
  import R = Reassembly
  import Decoder
  import Session

  // ---- Numbers ----

  /** Four bytes as a number, the most significant first. */
  function Big4(b: seq<byte>, i: nat): int
    requires i + 4 <= |b|
  {
    b[i] as int * 0x100_0000 + b[i + 1] as int * 0x1_0000 + b[i + 2] as int * 0x100 + b[i + 3] as int
  }

  /** Eight bytes as a number, the most significant first. */
  function Big8(b: seq<byte>, i: nat): int
    requires i + 8 <= |b|
  {
    Big4(b, i) * 0x1_0000_0000 + Big4(b, i + 4)
  }

  /** Four bytes as a number, the least significant first. */
  function Little4(b: seq<byte>, i: nat): int
    requires i + 4 <= |b|
  {
    b[i] as int + b[i + 1] as int * 0x100 + b[i + 2] as int * 0x1_0000 + b[i + 3] as int * 0x100_0000
  }

  lemma LastOfBe(n: nat, k: nat)
    requires 0 < k
    ensures ToBe(n, k)[k - 1] == n % 256
    ensures forall i :: 0 <= i < k - 1 ==> ToBe(n, k)[i] == ToBe(n / 256, k - 1)[i]
  {
  }

  lemma FirstOfLe(n: nat, k: nat)
    requires 0 < k
    ensures ToLe(n, k)[0] == n % 256
    ensures forall i :: 0 < i < k ==> ToLe(n, k)[i] == ToLe(n / 256, k - 1)[i - 1]
  {
  }

  /** The most significant byte first. */
  lemma BigEndian4(n: nat)
    requires n < 0x1_0000_0000
    ensures Big4(ToBe(n, 4), 0) == n
  {
    hide ToBe;
    LastOfBe(n, 4);
    LastOfBe(n / 256, 3);
    LastOfBe(n / 256 / 256, 2);
    LastOfBe(n / 256 / 256 / 256, 1);
    assert n / 256 / 256 / 256 < 256;
  }

  lemma BigEndian8(n: nat)
    requires n <= U64_MAX
    ensures Big8(ToBe(n, 8), 0) == n
  {
    hide ToBe;
    var m := n / 256 / 256 / 256 / 256;
    LastOfBe(n, 8);
    LastOfBe(n / 256, 7);
    LastOfBe(n / 256 / 256, 6);
    LastOfBe(n / 256 / 256 / 256, 5);
    BigEndian4(m);
  }

  /** The least significant byte first. */
  lemma LittleEndian4(n: nat)
    requires n < 0x1_0000_0000
    ensures Little4(ToLe(n, 4), 0) == n
  {
    hide ToLe;
    FirstOfLe(n, 4);
    FirstOfLe(n / 256, 3);
    FirstOfLe(n / 256 / 256, 2);
    FirstOfLe(n / 256 / 256 / 256, 1);
    assert n / 256 / 256 / 256 < 256;
  }

  // ---- Fragments (section 2.2.4 of MS-PSRP) ----

  /** Object id, fragment id, flags, length, blob: 21 bytes of header, the most significant byte of each field first. */
  lemma FragmentBytes(f: F.Fragment)
    requires |f.blob| <= U32_MAX
    ensures var b := F.Encode(f);
      && |b| == 21 + |f.blob|
      && Big8(b, 0) == f.objectId && Big8(b, 8) == f.fragmentId
      && b[16] == (if f.start then 1 else 0) + (if f.end then 2 else 0)
      && Big4(b, 17) == |f.blob|
      && b[21..] == f.blob
  {
    hide ToBe;
    BigEndian8(f.objectId);
    BigEndian8(f.fragmentId);
    BigEndian4(|f.blob|);
    FieldsOf(ToBe(f.objectId, 8), ToBe(f.fragmentId, 8), F.Flags(f), ToBe(|f.blob|, 4), f.blob);
  }

  lemma FieldsOf(a: seq<byte>, b: seq<byte>, c: byte, d: seq<byte>, e: seq<byte>)
    requires |a| == 8 && |b| == 8 && |d| == 4
    ensures var s := a + b + [c] + d + e;
      && |s| == 21 + |e| && (forall i :: 0 <= i < 8 ==> s[i] == a[i]) && (forall i :: 8 <= i < 16 ==> s[i] == b[i - 8])
      && s[16] == c && (forall i :: 17 <= i < 21 ==> s[i] == d[i - 17]) && s[21..] == e
  {
  }

  /** A message in pieces of 32 KiB, numbered from 0; only the first is marked as a start and only the last as an end. */
  lemma PiecesOfAMessage(id: F.u64, payload: seq<byte>, i: nat)
    requires |payload| <= F.MAX_VEC && i < |F.Split(id, payload)|
    ensures var s := F.Split(id, payload);
      && s[i].objectId == id && s[i].fragmentId == i
      && (s[i].start <==> i == 0) && (s[i].end <==> i == |s| - 1)
      && (i < |s| - 1 ==> |s[i].blob| == 32768) && |s[i].blob| <= 32768 && (i > 0 ==> s[i].blob != [])
      && 32768 * i + |s[i].blob| <= |payload| && s[i].blob == payload[32768 * i..32768 * i + |s[i].blob|]
  {
    PieceFrom(id, payload, 0, i);
  }

  lemma {:induction false} PieceFrom(id: F.u64, payload: seq<byte>, k: F.u64, i: nat)
    requires k + |payload| <= U64_MAX && i < |F.SplitFrom(id, payload, k)|
    ensures var s := F.SplitFrom(id, payload, k);
      && s[i].objectId == id && s[i].fragmentId == k + i
      && (s[i].start <==> k + i == 0) && (s[i].end <==> i == |s| - 1)
      && (i < |s| - 1 ==> |s[i].blob| == 32768) && |s[i].blob| <= 32768 && (i > 0 ==> s[i].blob != [])
      && 32768 * i + |s[i].blob| <= |payload| && s[i].blob == payload[32768 * i..32768 * i + |s[i].blob|]
    decreases |payload|
  {
    if |payload| > 32768 && i > 0 {
      var rest := payload[32768..];
      PieceFrom(id, rest, k + 1, i - 1);
      var s := F.SplitFrom(id, rest, k + 1);
      assert F.SplitFrom(id, payload, k)[1..] == s;
      assert rest[32768 * (i - 1)..32768 * (i - 1) + |s[i - 1].blob|]
          == payload[32768 * i..32768 * i + |s[i - 1].blob|];
    }
  }

  // ---- Messages (section 2.2.1 of MS-PSRP) ----

  /** The message type as section 2.2.1 lists it, least significant byte first. */
  function TypeBytes(t: M.MessageType): (r: seq<byte>)
    requires !t.Unknown?
    ensures |r| == 4
  {
    match t
    case SessionCapability => [0x02, 0x00, 0x01, 0x00]
    case InitRunspacePool => [0x04, 0x00, 0x01, 0x00]
    case PublicKey => [0x05, 0x00, 0x01, 0x00]
    case EncryptedSessionKey => [0x06, 0x00, 0x01, 0x00]
    case PublicKeyRequest => [0x07, 0x00, 0x01, 0x00]
    case SetMaxRunspaces => [0x02, 0x10, 0x02, 0x00]
    case SetMinRunspaces => [0x03, 0x10, 0x02, 0x00]
    case RunspaceAvailability => [0x04, 0x10, 0x02, 0x00]
    case RunspacePoolState => [0x05, 0x10, 0x02, 0x00]
    case CreatePipeline => [0x06, 0x10, 0x02, 0x00]
    case GetAvailableRunspaces => [0x07, 0x10, 0x02, 0x00]
    case UserEvent => [0x08, 0x10, 0x02, 0x00]
    case ApplicationPrivateData => [0x09, 0x10, 0x02, 0x00]
    case GetCommandMetadata => [0x0A, 0x10, 0x02, 0x00]
    case ConnectRunspacePool => [0x0B, 0x10, 0x02, 0x00]
    case RunspacePoolInitData => [0x0C, 0x10, 0x02, 0x00]
    case ResetRunspaceState => [0x0D, 0x10, 0x02, 0x00]
    case CloseRunspacePool => [0x0E, 0x10, 0x02, 0x00]
    case RunspacePoolHostCall => [0x00, 0x11, 0x02, 0x00]
    case RunspacePoolHostResponse => [0x01, 0x11, 0x02, 0x00]
    case PipelineInput => [0x02, 0x10, 0x04, 0x00]
    case EndOfPipelineInput => [0x03, 0x10, 0x04, 0x00]
    case PipelineOutput => [0x04, 0x10, 0x04, 0x00]
    case ErrorRecord => [0x05, 0x10, 0x04, 0x00]
    case PipelineState => [0x06, 0x10, 0x04, 0x00]
    case DebugRecord => [0x07, 0x10, 0x04, 0x00]
    case VerboseRecord => [0x08, 0x10, 0x04, 0x00]
    case WarningRecord => [0x09, 0x10, 0x04, 0x00]
    case ProgressRecord => [0x10, 0x10, 0x04, 0x00]
    case InformationRecord => [0x11, 0x10, 0x04, 0x00]
    case PipelineHostCall => [0x00, 0x11, 0x04, 0x00]
    case PipelineHostResponse => [0x01, 0x11, 0x04, 0x00]
  }

  lemma TypesAsListed(t: M.MessageType)
    requires !t.Unknown?
    ensures ToLe(M.ToCode(t), 4) == TypeBytes(t)
  {
    hide ToLe;
    CodesAsListed(t);
    SameLittle(M.ToCode(t), TypeBytes(t));
  }

  lemma CodesAsListed(t: M.MessageType)
    requires !t.Unknown?
    ensures Little4(TypeBytes(t), 0) == M.ToCode(t)
  {
  }

  lemma SameLittle(n: nat, b: seq<byte>)
    requires |b| == 4 && Little4(b, 0) == n
    ensures ToLe(n, 4) == b
  {
    hide ToLe;
    var z: nat := b[3] as int;
    var y: nat := b[2] as int + 256 * z;
    var x: nat := b[1] as int + 256 * y;
    LeastByte(n, b[0], x);
    LeastByte(x, b[1], y);
    LeastByte(y, b[2], z);
    LeastByte(z, b[3], 0);
    FirstOfLe(n, 4);
    FirstOfLe(x, 3);
    FirstOfLe(y, 2);
    FirstOfLe(z, 1);
  }

  lemma LeastByte(n: nat, low: byte, high: nat)
    requires n == low as int + 256 * high
    ensures n % 256 == low as int && n / 256 == high
  {
  }

  /** Destination (1 the client, 2 the server), type, the two ids with their first three fields turned round, the body. */
  lemma MessageBytes(m: M.Message)
    ensures var b := M.Encode(m);
      && |b| >= 40 && b[..4] == (if m.destination.Client? then [1, 0, 0, 0] else [2, 0, 0, 0])
      && (!m.messageType.Unknown? ==> b[4..8] == TypeBytes(m.messageType))
      && (m.messageType.Unknown? ==>
            Little4(b, 4) == m.messageType.code)
      && b[8..24] == [m.rpid[3], m.rpid[2], m.rpid[1], m.rpid[0], m.rpid[5], m.rpid[4], m.rpid[7], m.rpid[6]] + m.rpid[8..]
      && b[24..40] == [m.pid[3], m.pid[2], m.pid[1], m.pid[0], m.pid[5], m.pid[4], m.pid[7], m.pid[6]] + m.pid[8..]
      && b[40..] == Utf8(m.data)
  {
    hide ToLe, M.ToCode, Utf8, TypeBytes;
    M.HeaderParts(m);
    DestinationBytes();
    if m.messageType.Unknown? {
      M.UnknownKeepsCode(m.messageType.code);
      LittleEndian4(m.messageType.code);
    } else {
      TypesAsListed(m.messageType);
    }
  }

  lemma DestinationBytes()
    ensures ToLe(1, 4) == [1, 0, 0, 0] && ToLe(2, 4) == [2, 0, 0, 0]
  {
    assert ToLe(0, 1) == [0] && ToLe(0, 2) == [0, 0] && ToLe(0, 3) == [0, 0, 0];
  }

  // ---- Texts ----

  const DIGITS: string := "0123456789abcdef"

  lemma DigitsAsListed(n: nat)
    requires n < 16
    ensures HexDigit(n) == DIGITS[n] && HexValue(DIGITS[n]) == Some(n)
    ensures n < 10 ==> Digit(n) == DIGITS[n]
    ensures UpperHex(n) == "0123456789ABCDEF"[n] && HexValue("0123456789ABCDEF"[n]) == Some(n)
  {
  }

  function Pow10(k: nat): nat {
    if k == 0 then 1 else 10 * Pow10(k - 1)
  }

  /** A decimal text as a number, each digit at the weight of its place. */
  function Worth(s: string): int {
    if s == "" then 0 else (s[0] as int - '0' as int) * Pow10(|s| - 1) + Worth(s[1..])
  }

  lemma {:induction false} WorthSnoc(s: string, c: char)
    ensures Worth(s + [c]) == 10 * Worth(s) + (c as int - '0' as int)
  {
    if s == "" {
      assert s + [c] == [c] && [c][1..] == "";
      assert Worth([c]) == (c as int - '0' as int) * Pow10(0) + Worth("");
    } else {
      var d, r := s[0] as int - '0' as int, s[1..];
      assert (s + [c])[1..] == r + [c];
      WorthSnoc(r, c);
      calc {
        Worth(s + [c]);
        d * Pow10(|s|) + (10 * Worth(r) + (c as int - '0' as int));
        { assert Pow10(|s|) == 10 * Pow10(|s| - 1); Times10(d, Pow10(|s| - 1)); }
        10 * (d * Pow10(|s| - 1) + Worth(r)) + (c as int - '0' as int);
      }
    }
  }

  lemma Times10(a: int, b: int)
    ensures a * (10 * b) == 10 * (a * b)
  {
  }

  /** A decimal text is worth its number, and has no digit too many. */
  lemma {:induction false} DecimalText(n: nat)
    ensures Worth(ShowNat(n)) == n && (ShowNat(n)[0] == '0' ==> n == 0)
    ensures ShowInt(n) == ShowNat(n) && (n > 0 ==> ShowInt(0 - n as int) == "-" + ShowNat(n))
  {
    if n >= 10 {
      DecimalText(n / 10);
      WorthSnoc(ShowNat(n / 10), Digit(n % 10));
    } else {
      assert ShowNat(n) == [Digit(n)] && [Digit(n)][1..] == "";
      assert Worth(ShowNat(n)) == n * Pow10(0) + Worth("");
    }
  }

  /** Where the `i`-th byte of a GUID stands in its text. */
  function PlaceOf(i: nat): (p: nat)
    requires i < 16
    ensures p <= 34
  {
    2 * i + if i < 4 then 0 else if i < 6 then 1 else if i < 8 then 2 else if i < 10 then 3 else 4
  }

  lemma {:induction false} HexAt(b: seq<byte>, i: nat)
    requires i < |b|
    ensures Hex(b)[2 * i] == HexDigit(b[i] / 16) && Hex(b)[2 * i + 1] == HexDigit(b[i] % 16)
  {
    hide HexDigit;
    if i > 0 {
      HexAt(b[1..], i - 1);
      var rest := Hex(b[1..]);
      assert Hex(b)[2 * i] == rest[2 * (i - 1)] && Hex(b)[2 * i + 1] == rest[2 * (i - 1) + 1];
    }
  }

  /** 8-4-4-4-12 lowercase digits. */
  lemma GuidText(g: Guid, i: nat)
    requires i < 16
    ensures var s := ShowGuid(g);
      && s[8] == '-' && s[13] == '-' && s[18] == '-' && s[23] == '-'
      && s[PlaceOf(i)] == DIGITS[g[i] / 16] && s[PlaceOf(i) + 1] == DIGITS[g[i] % 16]
  {
    hide Hex, ShowGuid;
    GuidParts(g);
    var s := ShowGuid(g);
    if i < 4 {
      PartAt(s, g[..4], 0, i);
    } else if i < 6 {
      PartAt(s, g[4..6], 9, i - 4);
    } else if i < 8 {
      PartAt(s, g[6..8], 14, i - 6);
    } else if i < 10 {
      PartAt(s, g[8..10], 19, i - 8);
    } else {
      PartAt(s, g[10..], 24, i - 10);
    }
  }

  lemma GuidParts(g: Guid)
    ensures var s := ShowGuid(g);
      && s[8] == '-' && s[13] == '-' && s[18] == '-' && s[23] == '-'
      && s[0..8] == Hex(g[..4]) && s[9..13] == Hex(g[4..6]) && s[14..18] == Hex(g[6..8])
      && s[19..23] == Hex(g[8..10]) && s[24..36] == Hex(g[10..])
  {
    hide Hex;
    Hyphens(Hex(g[..4]), Hex(g[4..6]), Hex(g[6..8]), Hex(g[8..10]), Hex(g[10..]));
  }

  lemma Hyphens(a: string, b: string, c: string, d: string, e: string)
    requires |a| == 8 && |b| == 4 && |c| == 4 && |d| == 4 && |e| == 12
    ensures var s := a + "-" + b + "-" + c + "-" + d + "-" + e;
      && |s| == 36 && s[8] == '-' && s[13] == '-' && s[18] == '-' && s[23] == '-'
      && s[0..8] == a && s[9..13] == b && s[14..18] == c && s[19..23] == d && s[24..36] == e
  {
    var x := a + "-" + b;
    var y := x + "-" + c;
    var z := y + "-" + d;
    assert |x| == 13 && |y| == 18 && |z| == 23;
    assert x[0..8] == a && x[8] == '-' && x[9..13] == b;
    assert y[..13] == x && y[13] == '-' && y[14..18] == c;
    assert z[..18] == y && z[18] == '-' && z[19..23] == d;
    var s := z + "-" + e;
    assert s[..23] == z && s[23] == '-' && s[24..36] == e;
    assert s[0..8] == x[0..8] && s[9..13] == x[9..13] && s[14..18] == y[14..18];
  }

  lemma PartAt(s: string, b: seq<byte>, from: nat, j: nat)
    requires j < |b| && from + 2 * |b| <= |s| && s[from..from + 2 * |b|] == Hex(b)
    ensures s[from + 2 * j] == DIGITS[b[j] / 16] && s[from + 2 * j + 1] == DIGITS[b[j] % 16]
  {
    hide Hex, HexDigit;
    HexAt(b, j);
    DigitsAsListed(b[j] / 16);
    DigitsAsListed(b[j] % 16);
  }

  /** The bits of a character in the bytes of RFC 3629: the marker of the length, then six bits in each further byte. */
  lemma Utf8Bits(c: char)
    ensures var n, b := c as int, EncodeChar(c);
      && (n < 0x80 ==> |b| == 1 && b[0] == n)
      && (0x80 <= n < 0x800 ==> |b| == 2 && 0xC0 <= b[0] < 0xE0 && (b[0] - 0xC0) as int * 0x40 + (b[1] - 0x80) as int == n)
      && (0x800 <= n < 0x1_0000 ==>
            |b| == 3 && 0xE0 <= b[0] < 0xF0
            && (b[0] - 0xE0) as int * 0x1000 + (b[1] - 0x80) as int * 0x40 + (b[2] - 0x80) as int == n)
      && (0x1_0000 <= n ==>
            |b| == 4 && 0xF0 <= b[0] < 0xF8
            && (b[0] - 0xF0) as int * 0x4_0000 + (b[1] - 0x80) as int * 0x1000 + (b[2] - 0x80) as int * 0x40
               + (b[3] - 0x80) as int == n)
      && forall i :: 1 <= i < |b| ==> 0x80 <= b[i] < 0xC0
  {
    Digits64(c as int);
  }

  /** A character of the Basic Multilingual Plane is its own unit, any other the surrogate pair of RFC 2781. */
  lemma Utf16Units(c: char, rest: string)
    ensures var n, u := c as int, Utf16([c] + rest);
      if n < 0x1_0000 then u == [n] + Utf16(rest)
      else |u| >= 2 && 0xD800 <= u[0] < 0xDC00 && 0xDC00 <= u[1] < 0xE000 && u[2..] == Utf16(rest)
           && (u[0] - 0xD800) * 0x400 + (u[1] - 0xDC00) == n - 0x1_0000
  {
    C.Utf16Step(c, rest);
    var m := c as int - 0x1_0000;
    assert m / 0x400 * 0x400 + m % 0x400 == m;
  }

  // ---- Base64 (section 4 of RFC 4648) ----

  const ALPHABET: string := "ABCDEFGHIJKLMNOPQRSTUVWXYZ" + "abcdefghijklmnopqrstuvwxyz" + "0123456789+/"

  lemma AlphabetAsListed(v: Base64.sextet)
    ensures |ALPHABET| == 64 && Base64.Symbol(v) == ALPHABET[v]
  {
    if v < 26 {
      assert Base64.Symbol(v) == "ABCDEFGHIJKLMNOPQRSTUVWXYZ"[v];
    } else if v < 52 {
      assert Base64.Symbol(v) == "abcdefghijklmnopqrstuvwxyz"[v - 26];
    } else {
      assert Base64.Symbol(v) == "0123456789+/"[v - 52];
    }
  }

  /** A group is 24 bits, the first byte the most significant, in four times six. */
  lemma GroupOfSymbols(b0: byte, b1: byte, b2: byte)
    ensures var n := b0 as int * 0x1_0000 + b1 as int * 0x100 + b2 as int; var s := Base64.EncodeGroup(b0, b1, b2);
      && 0 <= n < 0x100_0000 && |ALPHABET| == 64 && s[0] == ALPHABET[n / 0x4_0000] && s[1] == ALPHABET[n / 0x1000 % 64]
      && s[2] == ALPHABET[n / 64 % 64] && s[3] == ALPHABET[n % 64]
  {
    hide Base64.Symbol;
    var n := b0 as int * 0x1_0000 + b1 as int * 0x100 + b2 as int;
    AlphabetAsListed(b0 / 4);
    AlphabetAsListed(b0 % 4 * 16 + b1 / 16);
    AlphabetAsListed(b1 % 16 * 4 + b2 / 64);
    AlphabetAsListed(b2 % 64);
    Sextets(b0, b1, b2, n);
  }

  lemma Sextets(b0: byte, b1: byte, b2: byte, n: int)
    requires n == b0 as int * 0x1_0000 + b1 as int * 0x100 + b2 as int
    ensures n / 0x4_0000 == b0 / 4 && n / 0x1000 % 64 == b0 % 4 * 16 + b1 / 16
    ensures n / 64 % 64 == b1 % 16 * 4 + b2 / 64 && n % 64 == b2 % 64
  {
    var x, y := b0 as int, b1 as int;
    assert n / 64 == x * 1024 + y * 4 + b2 as int / 64;
    assert n / 0x1000 == x * 16 + y / 16;
  }

  /** The groups one after the other; a rest of one byte or two is filled up with zero bits, and `=` says so. */
  lemma GroupsAsWritten(bytes: seq<byte>, i: nat)
    requires 3 * i <= |bytes|
    ensures |Base64.Encode(bytes)| == (|bytes| + 2) / 3 * 4 && 4 * i <= |Base64.Encode(bytes)|
    ensures var s := Base64.Encode(bytes)[4 * i..]; var rest := |bytes| - 3 * i;
      && (rest >= 3 ==> |s| >= 4 && s[..4] == Base64.EncodeGroup(bytes[3 * i], bytes[3 * i + 1], bytes[3 * i + 2]))
      && (rest == 2 ==> s == Base64.EncodeGroup(bytes[3 * i], bytes[3 * i + 1], 0)[..3] + "=")
      && (rest == 1 ==> s == Base64.EncodeGroup(bytes[3 * i], 0, 0)[..2] + "==")
      && (rest == 0 ==> s == "")
    decreases i
  {
    hide Base64.EncodeGroup;
    Base64.EncodeShape(bytes);
    if i > 0 {
      GroupsAsWritten(bytes[3..], i - 1);
      var tail := Base64.Encode(bytes[3..]);
      assert Base64.Encode(bytes)[4 * i..] == tail[4 * (i - 1)..];
    }
  }

  // ---- The cipher ----

  /** The text as it is encrypted: UTF-16, the low byte of each unit first, then `k` bytes `k` up to a whole block. */
  lemma PaddedText(plain: string, i: nat)
    ensures var u := Utf16(plain); var p := C.Pad(C.Little(u)); var k := 16 - 2 * |u| % 16;
      && |p| == 2 * |u| + k
      && (i < |u| ==> p[2 * i] as int + 0x100 * p[2 * i + 1] as int == u[i])
      && (2 * |u| <= i < |p| ==> p[i] == k)
  {
    var u := Utf16(plain);
    if i < |u| {
      LowByteFirst(u, i);
    }
  }

  lemma {:induction false} LowByteFirst(units: seq<nat>, i: nat)
    requires i < |units| && forall j :: 0 <= j < |units| ==> units[j] < 0x1_0000
    ensures C.Little(units)[2 * i] as int == units[i] % 256 && C.Little(units)[2 * i + 1] as int == units[i] / 256
  {
    if i > 0 {
      LowByteFirst(units[1..], i - 1);
      assert C.Little(units)[2..] == C.Little(units[1..]);
      assert C.Little(units)[2 * i] == C.Little(units)[2..][2 * (i - 1)];
      assert C.Little(units)[2 * i + 1] == C.Little(units)[2..][2 * (i - 1) + 1];
    }
  }

  /** Each block is encrypted together with the one before it; the first as it is, the initial vector being zero. */
  lemma BlocksAreChained(c: C.Cipher, plain: string, k: nat)
    requires 16 * k < |C.Encrypt(c, plain)|
    ensures var p, e := C.Pad(C.Little(Utf16(plain))), C.Encrypt(c, plain);
      && |p| == |e| && 16 * k + 16 <= |e|
      && (k == 0 ==> e[..16] == c.enc(p[..16]))
      && (k > 0 ==> e[16 * k..16 * k + 16] == c.enc(C.XorBlock(p[16 * k..16 * k + 16], e[16 * k - 16..16 * k])))
  {
    hide C.CbcEncrypt, C.Pad, C.Little, Utf16, C.XorBlock;
    var p := C.Pad(C.Little(Utf16(plain)));
    Chained(c, C.IV, p, k);
    if k == 0 {
      XorNothing(p[..16]);
    }
  }

  lemma {:induction false} Chained(c: C.Cipher, prev: C.Block, p: seq<byte>, k: nat)
    requires |p| % 16 == 0 && 16 * k < |p|
    ensures var e := C.CbcEncrypt(c, prev, p);
      |e| == |p| && e[16 * k..16 * k + 16]
                    == c.enc(C.XorBlock(p[16 * k..16 * k + 16], if k == 0 then prev else e[16 * k - 16..16 * k]))
    decreases k
  {
    hide C.XorBlock;
    var block := c.enc(C.XorBlock(p[..16], prev));
    var rest := C.CbcEncrypt(c, block, p[16..]);
    assert C.CbcEncrypt(c, prev, p) == block + rest;
    if k > 0 {
      Chained(c, block, p[16..], k - 1);
      assert p[16..][16 * (k - 1)..16 * (k - 1) + 16] == p[16 * k..16 * k + 16];
      assert rest[16 * (k - 1)..16 * (k - 1) + 16] == (block + rest)[16 * k..16 * k + 16];
      if k > 1 {
        assert rest[16 * (k - 1) - 16..16 * (k - 1)] == (block + rest)[16 * k - 16..16 * k];
      } else {
        assert (block + rest)[0..16] == block;
      }
    }
  }

  lemma XorNothing(b: C.Block)
    ensures C.XorBlock(b, C.IV) == b
  {
    forall i | 0 <= i < 16 ensures C.Xor(b[i], 0) == b[i] {
      XorZero(b[i], 8);
      C.EightBits();
    }
  }

  lemma {:induction false} XorZero(a: nat, k: nat)
    requires a < C.Pow2(k)
    ensures C.XorBits(a, 0, k) == a
  {
    if k > 0 {
      XorZero(a / 2, k - 1);
    }
  }

  // ---- Patterns of known hosts ----

  /** Letters match in either case; no other byte matches another one. */
  lemma CaseOfLetters(a: byte, b: byte)
    ensures G.EqIgnoreAsciiCase(a, b) <==>
      a == b || ('A' as int <= a as int <= 'Z' as int && b as int == a as int + 32)
             || ('A' as int <= b as int <= 'Z' as int && a as int == b as int + 32)
    ensures G.STAR as int == '*' as int && G.QUESTION as int == '?' as int && G.BANG as int == '!' as int
  {
  }

  /** `*` stands for any run, `?` for any one byte, and a leading `!` turns an entry round. */
  lemma WildcardsAsMeant(p: seq<byte>, t: seq<byte>)
    ensures G.Matches(['*' as int] + p, t) <==> exists k :: 0 <= k <= |t| && G.Matches(p, t[k..])
    ensures G.Matches(['?' as int] + p, t) <==> t != [] && G.Matches(p, t[1..])
    ensures G.Negated(p) <==> p != [] && p[0] as int == '!' as int
    ensures G.EntryMatches(['!' as int] + p, t) <==> G.Matches(p, t)
    ensures !G.Negated(p) ==> (G.EntryMatches(p, t) <==> G.Matches(p, t))
  {
    assert (['*' as int] + p)[1..] == p && (['?' as int] + p)[1..] == p && (['!' as int] + p)[1..] == p;
  }

  /** A pattern without wildcards matches what it spells, up to case. */
  lemma {:induction false} LiteralPattern(p: seq<byte>, t: seq<byte>)
    requires forall i :: 0 <= i < |p| ==> p[i] as int != '*' as int && p[i] as int != '?' as int
    ensures G.Matches(p, t) <==> |p| == |t| && forall i :: 0 <= i < |p| ==> G.EqIgnoreAsciiCase(p[i], t[i])
  {
    hide G.EqIgnoreAsciiCase;
    if p != [] && t != [] {
      LiteralPattern(p[1..], t[1..]);
      assert (forall i :: 1 <= i < |p| ==> p[i] == p[1..][i - 1]) && forall i :: 1 <= i < |t| ==> t[i] == t[1..][i - 1];
      assert forall i :: 0 <= i < |p[1..]| ==> p[1..][i] == p[i + 1];
      assert forall i :: 0 <= i < |t[1..]| ==> t[1..][i] == t[i + 1];
    }
  }

  // ---- Lines ----

  lemma {:induction false} NoNewlineByte(s: string)
    requires '\n' !in s
    ensures L.NEWLINE !in Utf8(s)
  {
    if s != "" {
      NoNewlineByte(s[1..]);
      Utf8Bits(s[0]);
      assert s[0] in s;
    }
  }

  /** A line ends at LF; one CR before it goes too, and so does a byte order mark on the very first line. */
  lemma LineAsRead(seenFirst: bool, text: string, rest: seq<byte>)
    requires '\n' !in text && |Utf8(text)| < 0x10_0000
    ensures var st := L.Splitter([], seenFirst); var p := L.Push(st, Utf8(text) + [0x0D, 0x0A] + rest);
      p.lines != [] && p.lines[0] == if seenFirst then text else StripBom(text)
    ensures text == "" || text[|text| - 1] != '\r' ==>
      var st := L.Splitter([], seenFirst); var p := L.Push(st, Utf8(text) + [0x0A] + rest);
      p.lines != [] && p.lines[0] == if seenFirst then text else StripBom(text)
  {
    hide Utf8, FromUtf8, L.Push, L.StripCr;
    NoNewlineByte(text);
    FromUtf8OfUtf8(text);
    assert Utf8(text) + [0x0D, 0x0A] + rest == (Utf8(text) + [0x0D]) + ([0x0A] + rest);
    assert Utf8(text) + [0x0A] + rest == Utf8(text) + ([0x0A] + rest);
    OneCrGoes(Utf8(text));
    OneLine(seenFirst, Utf8(text) + [0x0D], text, rest);
    if text == "" || text[|text| - 1] != '\r' {
      NoCrAtEnd(text);
      OneLine(seenFirst, Utf8(text), text, rest);
    }
  }

  lemma OneCrGoes(line: seq<byte>)
    ensures L.StripCr(line + [0x0D]) == line
  {
  }

  lemma OneLine(seenFirst: bool, line: seq<byte>, text: string, rest: seq<byte>)
    requires L.NEWLINE !in line && |line| <= 0x10_0000 && FromUtf8(L.StripCr(line)) == Some(text)
    ensures var p := L.Push(L.Splitter([], seenFirst), line + ([0x0A] + rest));
      p.lines != [] && p.lines[0] == if seenFirst then text else StripBom(text)
  {
    hide FromUtf8, L.StripCr, L.NewlineAt;
    FirstNewline(line, rest);
    NothingBefore(line);
  }

  lemma FirstNewline(line: seq<byte>, rest: seq<byte>)
    requires L.NEWLINE !in line
    ensures var b := line + ([L.NEWLINE] + rest); L.NewlineAt(b) == |line| && b[..|line|] == line
  {
    L.NewlineAtAppend(line, [L.NEWLINE] + rest);
    NoNewlineIn(line);
  }

  lemma {:induction false} NoNewlineIn(line: seq<byte>)
    requires L.NEWLINE !in line
    ensures L.NewlineAt(line) == |line|
  {
    if line != [] {
      NoNewlineIn(line[1..]);
    }
  }

  lemma NoCrAtEnd(text: string)
    requires text == "" || text[|text| - 1] != '\r'
    ensures L.StripCr(Utf8(text)) == Utf8(text)
  {
    hide EncodeChar, Utf8;
    NoUtf8();
    if text != "" {
      var last := text[|text| - 1];
      assert text == text[..|text| - 1] + [last];
      Utf8Append(text[..|text| - 1], [last]);
      OneChar(last);
      Utf8Bits(last);
    }
  }

  lemma NoUtf8()
    ensures Utf8("") == []
  {
  }

  lemma OneChar(c: char)
    ensures Utf8([c]) == EncodeChar(c)
  {
    hide EncodeChar;
    assert [c][1..] == "";
  }

  // ---- Limits ----

  /** The numbers the two sides agree on, or the client sets itself. */
  lemma LimitsAsSet(length: nat)
    ensures F.MAX_FRAGMENT_PAYLOAD == 32768 && F.HEADER_LEN == 21 && P.MAX_DATA_PAYLOAD == 32768
    ensures L.MAX_LINE_BYTES == 1048576 && Session.QUEUE_ENTRY_OVERHEAD == 64
    ensures Decoder.MAX_NESTING_DEPTH == 64 && P.SERVER_ERROR_PREFIX == "__NamedPipeError__:"
    ensures Decoder.RefBudget(length) == Min(1048576 + 8 * length, 8388608)
  {
  }

  /** The white space of Unicode, the blanks base64 may have, and the byte order mark. */
  lemma CharactersAsListed(c: char)
    ensures IsWhitespace(c) <==>
      c in ['\U{0009}', '\U{000A}', '\U{000B}', '\U{000C}', '\U{000D}', '\U{0020}', '\U{0085}', '\U{00A0}', '\U{1680}',
            '\U{2000}', '\U{2001}', '\U{2002}', '\U{2003}', '\U{2004}', '\U{2005}', '\U{2006}', '\U{2007}', '\U{2008}',
            '\U{2009}', '\U{200A}', '\U{2028}', '\U{2029}', '\U{202F}', '\U{205F}', '\U{3000}']
    ensures Base64.Skipped(c) <==> c in [' ', '\t', '\r', '\n']
    ensures BOM == '\U{FEFF}' && U32_MAX == 4294967295 && U64_MAX == 18446744073709551615
  {
  }
}
