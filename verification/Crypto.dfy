/** The `SecureString` cipher: UTF-16LE, PKCS#7 (section 6.3 of RFC 5652) and CBC over a block permutation. */
module Crypto {
  import opened Common
  import opened Escapes

  type Block = b: seq<byte> | |b| == 16 witness [0, 0, 0, 0, 0, 0, 0, 0, 0, 0, 0, 0, 0, 0, 0, 0]

  const IV: Block := [0, 0, 0, 0, 0, 0, 0, 0, 0, 0, 0, 0, 0, 0, 0, 0]

  /** A keyed block cipher: the two directions of AES-256 under one key. */
  datatype Cipher = Cipher(enc: Block -> Block, dec: Block -> Block)

  /** The one fact about AES that is used: its directions undo each other. */
  ghost predicate IsPermutation(c: Cipher) {
    (forall b: Block :: c.dec(c.enc(b)) == b) && (forall b: Block :: c.enc(c.dec(b)) == b)
  }

  datatype Refusal = Malformed | BadPadding | NotAligned | NotUtf16

  // ---- Exclusive or ----

  /** Bitwise exclusive or of the low `k` bits. */
  function XorBits(a: nat, b: nat, k: nat): nat {
    if k == 0 then 0 else (a % 2 + b % 2) % 2 + 2 * XorBits(a / 2, b / 2, k - 1)
  }

  function Pow2(k: nat): (p: nat)
    ensures 0 < p
  {
    if k == 0 then 1 else 2 * Pow2(k - 1)
  }

  lemma {:induction false} XorBitsUndoes(a: nat, b: nat, k: nat)
    requires a < Pow2(k)
    ensures XorBits(a, b, k) < Pow2(k) && XorBits(XorBits(a, b, k), b, k) == a
  {
    hide XorBits;
    assert XorBits(a, b, 0) == 0 && XorBits(0, b, 0) == 0 by { XorNoBits(a, b); }
    if k > 0 {
      XorBitsUndoes(a / 2, b / 2, k - 1);
      var x := XorBits(a, b, k);
      XorBitsStep(a, b, k);
      XorBitsStep(x, b, k);
      LowBit((a % 2 + b % 2) % 2, XorBits(a / 2, b / 2, k - 1));
      LowBitTwice(a, b);
    }
  }

  lemma XorNoBits(a: nat, b: nat)
    ensures XorBits(a, b, 0) == 0 && XorBits(0, b, 0) == 0
  {
  }

  lemma XorBitsStep(a: nat, b: nat, k: nat)
    requires 0 < k
    ensures XorBits(a, b, k) == (a % 2 + b % 2) % 2 + 2 * XorBits(a / 2, b / 2, k - 1)
  {
  }

  lemma LowBit(low: nat, high: nat)
    requires low < 2
    ensures (low + 2 * high) % 2 == low && (low + 2 * high) / 2 == high
  {
  }

  lemma LowBitTwice(a: nat, b: nat)
    ensures ((a % 2 + b % 2) % 2 + b % 2) % 2 == a % 2
  {
  }

  lemma EightBits()
    ensures Pow2(8) == 256
  {
    assert Pow2(4) == 16 && Pow2(6) == 64;
  }

  function Xor(a: byte, b: byte): byte {
    EightBits();
    XorBitsUndoes(a, b, 8);
    XorBits(a, b, 8)
  }

  /** Bit `k` of a number. */
  function Bit(a: nat, k: nat): nat {
    if k == 0 then a % 2 else Bit(a / 2, k - 1)
  }

  /** Each bit is the sum of the two bits, without a carry. */
  lemma {:induction false} XorBitwise(a: nat, b: nat, n: nat, k: nat)
    requires k < n
    ensures Bit(XorBits(a, b, n), k) == (Bit(a, k) + Bit(b, k)) % 2
  {
    hide XorBits;
    XorBitsStep(a, b, n);
    LowBit((a % 2 + b % 2) % 2, XorBits(a / 2, b / 2, n - 1));
    if k > 0 {
      XorBitwise(a / 2, b / 2, n - 1, k - 1);
    }
  }

  lemma XorIsBitwise(a: byte, b: byte, k: nat)
    requires k < 8
    ensures Bit(Xor(a, b), k) == (Bit(a, k) + Bit(b, k)) % 2
  {
    hide XorBits, Bit;
    XorBitwise(a, b, 8, k);
  }

  lemma XorUndoes(a: byte, b: byte)
    ensures Xor(Xor(a, b), b) == a
  {
    hide XorBits;
    EightBits();
    XorBitsUndoes(a, b, 8);
  }

  function XorBlock(a: Block, b: Block): (r: Block)
    ensures forall i :: 0 <= i < 16 ==> r[i] == Xor(a[i], b[i])
  {
    seq(16, i requires 0 <= i < 16 => Xor(a[i], b[i]))
  }

  lemma XorBlockUndoes(a: Block, b: Block)
    ensures XorBlock(XorBlock(a, b), b) == a
  {
    hide Xor, XorBlock;
    forall i | 0 <= i < 16 ensures XorBlock(XorBlock(a, b), b)[i] == a[i] {
      XorUndoes(a[i], b[i]);
    }
  }

  // ---- CBC ----

  function CbcEncrypt(c: Cipher, prev: Block, text: seq<byte>): (r: seq<byte>)
    ensures |r| == |text| / 16 * 16
    decreases |text|
  {
    if |text| < 16 then []
    else
      var block := c.enc(XorBlock(text[..16], prev));
      block + CbcEncrypt(c, block, text[16..])
  }

  function CbcDecrypt(c: Cipher, prev: Block, text: seq<byte>): (r: seq<byte>)
    ensures |r| == |text| / 16 * 16
    decreases |text|
  {
    if |text| < 16 then []
    else XorBlock(c.dec(text[..16]), prev) + CbcDecrypt(c, text[..16], text[16..])
  }

  lemma First16(block: Block, rest: seq<byte>)
    ensures (block + rest)[..16] == block && (block + rest)[16..] == rest
  {
  }

  lemma {:induction false} DecryptUndoes(c: Cipher, prev: Block, text: seq<byte>)
    requires IsPermutation(c) && |text| % 16 == 0
    ensures CbcDecrypt(c, prev, CbcEncrypt(c, prev, text)) == text
    decreases |text|
  {
    hide XorBlock;
    if text != [] {
      var block := c.enc(XorBlock(text[..16], prev));
      First16(block, CbcEncrypt(c, block, text[16..]));
      DecryptUndoes(c, block, text[16..]);
      assert c.dec(block) == XorBlock(text[..16], prev);
      XorBlockUndoes(text[..16], prev);
      assert text[..16] + text[16..] == text;
    }
  }

  lemma {:induction false} EncryptUndoes(c: Cipher, prev: Block, text: seq<byte>)
    requires IsPermutation(c) && |text| % 16 == 0
    ensures CbcEncrypt(c, prev, CbcDecrypt(c, prev, text)) == text
    decreases |text|
  {
    hide XorBlock;
    if text != [] {
      var block: Block := XorBlock(c.dec(text[..16]), prev);
      First16(block, CbcDecrypt(c, text[..16], text[16..]));
      EncryptUndoes(c, text[..16], text[16..]);
      XorBlockUndoes(c.dec(text[..16]), prev);
      assert c.enc(c.dec(text[..16])) == text[..16];
      assert text[..16] + text[16..] == text;
    }
  }

  /** Blocks depend only on what comes before them. */
  lemma {:induction false} CbcPrefix(c: Cipher, prev: Block, a: seq<byte>, b: seq<byte>, k: nat)
    requires 16 * k <= |a| && 16 * k <= |b| && a[..16 * k] == b[..16 * k]
    ensures CbcEncrypt(c, prev, a)[..16 * k] == CbcEncrypt(c, prev, b)[..16 * k]
    decreases k
  {
    hide XorBlock;
    if k > 0 {
      assert a[..16] == a[..16 * k][..16] == b[..16 * k][..16] == b[..16];
      var block := c.enc(XorBlock(a[..16], prev));
      assert a[16..][..16 * (k - 1)] == a[..16 * k][16..] == b[..16 * k][16..] == b[16..][..16 * (k - 1)];
      CbcPrefix(c, block, a[16..], b[16..], k - 1);
      PrefixStep(block, CbcEncrypt(c, block, a[16..]), k);
      PrefixStep(block, CbcEncrypt(c, block, b[16..]), k);
    }
  }

  lemma PrefixStep(block: Block, rest: seq<byte>, k: nat)
    requires 0 < k && 16 * (k - 1) <= |rest|
    ensures (block + rest)[..16 * k] == block + rest[..16 * (k - 1)]
  {
  }

  // ---- Padding ----

  function Repeat(b: byte, n: nat): (r: seq<byte>)
    ensures |r| == n && forall i :: 0 <= i < n ==> r[i] == b
  {
    if n == 0 then [] else [b] + Repeat(b, n - 1)
  }

  function Pad(text: seq<byte>): (r: seq<byte>)
    ensures |r| == (|text| / 16 + 1) * 16
  {
    text + Repeat(16 - |text| % 16, 16 - |text| % 16)
  }

  function Unpad(text: seq<byte>): Result<seq<byte>, Refusal> {
    if text == [] then Err(BadPadding)
    else
      var pad := text[|text| - 1];
      if pad == 0 || pad > 16 || pad > |text| then Err(BadPadding)
      else if exists i :: |text| - pad <= i < |text| && text[i] != pad then Err(BadPadding)
      else Ok(text[..|text| - pad])
  }

  lemma UnpadPad(text: seq<byte>)
    ensures Unpad(Pad(text)) == Ok(text)
  {
    var p := Pad(text);
    assert p[..|text|] == text;
  }

  lemma PadUnpad(text: seq<byte>)
    requires |text| % 16 == 0 && Unpad(text).Ok?
    ensures Pad(Unpad(text).value) == text
  {
    var pad := text[|text| - 1];
    var body := Unpad(text).value;
    assert |body| % 16 == (16 - pad) % 16;
    assert 16 - |body| % 16 == pad;
    assert text == body + text[|text| - pad..];
  }

  // ---- UTF-16LE ----

  function Little(units: seq<nat>): (r: seq<byte>)
    requires forall i :: 0 <= i < |units| ==> units[i] < 0x1_0000
    ensures |r| == 2 * |units|
  {
    if units == [] then []
    else
      assert units[0] < 0x1_0000;
      [units[0] % 256, units[0] / 256] + Little(units[1..])
  }

  function Units(bytes: seq<byte>): (r: seq<nat>)
    requires |bytes| % 2 == 0
    ensures |r| == |bytes| / 2 && forall i :: 0 <= i < |r| ==> r[i] < 0x1_0000
  {
    if bytes == [] then []
    else
      var unit: nat := bytes[0] as int + 256 * (bytes[1] as int);
      [unit] + Units(bytes[2..])
  }

  lemma {:induction false} UnitsOfLittle(units: seq<nat>)
    requires forall i :: 0 <= i < |units| ==> units[i] < 0x1_0000
    ensures Units(Little(units)) == units
  {
    if units != [] {
      assert Little(units)[2..] == Little(units[1..]);
      UnitsOfLittle(units[1..]);
    }
  }

  lemma {:induction false} LittleOfUnits(bytes: seq<byte>)
    requires |bytes| % 2 == 0
    ensures Little(Units(bytes)) == bytes
  {
    if bytes != [] {
      assert Units(bytes)[1..] == Units(bytes[2..]);
      LittleOfUnits(bytes[2..]);
      assert bytes == [bytes[0], bytes[1]] + bytes[2..];
    }
  }

  /** `String::from_utf16`: no lone surrogate. */
  function FromUtf16(units: seq<nat>): Option<string>
    requires forall i :: 0 <= i < |units| ==> units[i] < 0x1_0000
  {
    if units == [] then Some("")
    else if IsHigh(units[0]) then
      if |units| > 1 && IsLow(units[1]) then
        match FromUtf16(units[2..])
        case Some(s) => Some([(0x1_0000 + (units[0] - 0xD800) * 0x400 + (units[1] - 0xDC00)) as char] + s)
        case None => None
      else None
    else if IsLow(units[0]) then None
    else
      match FromUtf16(units[1..])
      case Some(s) => Some([units[0] as char] + s)
      case None => None
  }

  lemma {:induction false} FromUtf16OfUtf16(s: string)
    ensures FromUtf16(Utf16(s)) == Some(s)
  {
    if s != "" {
      FromUtf16OfUtf16(s[1..]);
      var n := s[0] as int;
      var u := Utf16(s);
      if n < 0x1_0000 {
        assert u[1..] == Utf16(s[1..]);
      } else {
        assert u[2..] == Utf16(s[1..]);
        assert (n - 0x1_0000) / 0x400 * 0x400 + (n - 0x1_0000) % 0x400 == n - 0x1_0000;
      }
      assert s == [s[0]] + s[1..];
    }
  }

  lemma PairOf(high: nat, low: nat)
    requires IsHigh(high) && IsLow(low)
    ensures var n := 0x1_0000 + (high - 0xD800) * 0x400 + (low - 0xDC00);
      && 0x1_0000 <= n < 0x11_0000
      && 0xD800 + (n - 0x1_0000) / 0x400 == high && 0xDC00 + (n - 0x1_0000) % 0x400 == low
  {
    var m := (high - 0xD800) * 0x400 + (low - 0xDC00);
    assert m / 0x400 == high - 0xD800 && m % 0x400 == low - 0xDC00;
  }

  lemma Utf16Step(c: char, rest: string)
    ensures Utf16([c] + rest)
         == (if c as int < 0x1_0000 then [c as int]
             else [0xD800 + (c as int - 0x1_0000) / 0x400, 0xDC00 + (c as int - 0x1_0000) % 0x400]) + Utf16(rest)
  {
    assert ([c] + rest)[1..] == rest;
  }

  lemma {:induction false} Utf16OfFromUtf16(units: seq<nat>)
    requires forall i :: 0 <= i < |units| ==> units[i] < 0x1_0000
    requires FromUtf16(units).Some?
    ensures Utf16(FromUtf16(units).value) == units
  {
    hide Utf16;
    if units == [] {
      assert Utf16("") == [] by { NoUnits(); }
    } else if IsHigh(units[0]) {
      Utf16OfFromUtf16(units[2..]);
      PairOf(units[0], units[1]);
      var n := 0x1_0000 + (units[0] - 0xD800) * 0x400 + (units[1] - 0xDC00);
      Utf16Step(n as char, FromUtf16(units[2..]).value);
      assert units == [units[0], units[1]] + units[2..];
    } else {
      Utf16OfFromUtf16(units[1..]);
      Utf16Step(units[0] as char, FromUtf16(units[1..]).value);
      assert units == [units[0]] + units[1..];
    }
  }

  lemma NoUnits()
    ensures Utf16("") == []
  {
  }

  // ---- SecureString ----

  /** `encrypt_secure_string`. */
  function Encrypt(c: Cipher, plain: string): (r: seq<byte>)
    ensures |r| == (|Little(Utf16(plain))| / 16 + 1) * 16
  {
    CbcEncrypt(c, IV, Pad(Little(Utf16(plain))))
  }

  /** `decrypt_secure_string`. */
  function Decrypt(c: Cipher, payload: seq<byte>): Result<string, Refusal> {
    if |payload| < 16 || |payload| % 16 != 0 then Err(Malformed)
    else
      var text :- Unpad(CbcDecrypt(c, IV, payload));
      if |text| % 2 != 0 then Err(NotAligned)
      else
        match FromUtf16(Units(text))
        case Some(s) => Ok(s)
        case None => Err(NotUtf16)
  }

  /** Decryption accepts exactly the encryption of what it returns: round trip in both directions. */
  lemma DecryptIffEncrypt(c: Cipher, payload: seq<byte>, plain: string)
    requires IsPermutation(c)
    ensures Decrypt(c, payload) == Ok(plain) <==> payload == Encrypt(c, plain)
  {
    hide CbcEncrypt, CbcDecrypt, Pad, Unpad, Little, Units, Utf16, FromUtf16, IsPermutation;
    if payload == Encrypt(c, plain) {
      DecryptUndoes(c, IV, Pad(Little(Utf16(plain))));
      UnpadPad(Little(Utf16(plain)));
      UnitsOfLittle(Utf16(plain));
      FromUtf16OfUtf16(plain);
    } else if Decrypt(c, payload) == Ok(plain) {
      var padded := CbcDecrypt(c, IV, payload);
      var text := Unpad(padded).value;
      PadUnpad(padded);
      LittleOfUnits(text);
      Utf16OfFromUtf16(Units(text));
      EncryptUndoes(c, IV, payload);
    }
  }

  /** Under one key, plaintexts that share their first `8 * k` UTF-16 units share their first `k` blocks. */
  lemma SharedPrefix(c: Cipher, a: string, b: string, k: nat)
    requires 8 * k <= |Utf16(a)| && 8 * k <= |Utf16(b)| && Utf16(a)[..8 * k] == Utf16(b)[..8 * k]
    ensures Encrypt(c, a)[..16 * k] == Encrypt(c, b)[..16 * k]
  {
    hide CbcEncrypt, Utf16, Little, Repeat;
    LittlePrefix(Utf16(a), 8 * k);
    LittlePrefix(Utf16(b), 8 * k);
    var x, y := Little(Utf16(a)), Little(Utf16(b));
    assert Pad(x)[..16 * k] == x[..16 * k] && Pad(y)[..16 * k] == y[..16 * k];
    CbcPrefix(c, IV, Pad(x), Pad(y), k);
  }

  lemma {:induction false} LittlePrefix(units: seq<nat>, n: nat)
    requires n <= |units| && forall i :: 0 <= i < |units| ==> units[i] < 0x1_0000
    ensures Little(units)[..2 * n] == Little(units[..n])
  {
    if n > 0 {
      LittlePrefix(units[1..], n - 1);
      assert units[..n][1..] == units[1..][..n - 1];
      assert Little(units)[..2 * n] == [units[0] % 256, units[0] / 256] + Little(units[1..])[..2 * (n - 1)];
    }
  }

  // ---- The loops ----

  /** The in-place exclusive or of a block with the previous one. */
  method XorInto(block: array<byte>, prev: Block)
    requires block.Length == 16
    modifies block
    ensures block[..] == XorBlock(old(block[..]), prev)
  {
    hide Xor, XorBlock;
    for i := 0 to 16
      invariant forall j :: 0 <= j < i ==> block[j] == Xor(old(block[j]), prev[j])
      invariant forall j :: i <= j < 16 ==> block[j] == old(block[j])
    {
      block[i] := Xor(block[i], prev[i]);
    }
  }

  method CopyBlock(text: seq<byte>) returns (block: array<byte>)
    requires |text| >= 16
    ensures fresh(block) && block.Length == 16 && block[..] == text[..16]
  {
    block := new byte[16];
    for i := 0 to 16
      invariant forall j :: 0 <= j < i ==> block[j] == text[j]
    {
      block[i] := text[i];
    }
  }

  lemma EncryptStep(c: Cipher, prev: Block, text: seq<byte>)
    requires |text| >= 16
    ensures var block := c.enc(XorBlock(text[..16], prev));
      CbcEncrypt(c, prev, text) == block + CbcEncrypt(c, block, text[16..])
  {
    hide XorBlock;
  }

  lemma Slide(text: seq<byte>, i: nat)
    requires 16 * i + 16 <= |text|
    ensures text[16 * i..][16..] == text[16 * (i + 1)..]
  {
  }

  /** One turn: the first block of `text`, chained to the one before it. */
  method EncryptBlock(c: Cipher, prev: Block, text: seq<byte>) returns (r: Block)
    requires |text| >= 16
    ensures CbcEncrypt(c, prev, text) == r + CbcEncrypt(c, r, text[16..])
  {
    hide CbcEncrypt, XorBlock;
    var block := CopyBlock(text);
    XorInto(block, prev);
    assert |block[..]| == 16;
    EncryptStep(c, prev, text);
    r := c.enc(block[..]);
  }

  /** The chaining loop over whole blocks. */
  method EncryptBlocks(c: Cipher, padded: seq<byte>) returns (out: seq<byte>)
    requires |padded| % 16 == 0
    ensures out == CbcEncrypt(c, IV, padded)
  {
    hide CbcEncrypt, XorBlock;
    out := [];
    var prev: Block := IV;
    assert padded[0..] == padded;
    NothingBefore(CbcEncrypt(c, IV, padded));
    for i := 0 to |padded| / 16
      invariant out + CbcEncrypt(c, prev, padded[16 * i..]) == CbcEncrypt(c, IV, padded)
    {
      Slide(padded, i);
      prev := EncryptBlock(c, prev, padded[16 * i..]);
      Regroup(out, prev, CbcEncrypt(c, prev, padded[16 * (i + 1)..]));
      out := out + prev;
    }
    assert padded[16 * (|padded| / 16)..] == [];
    EncryptNothing(c, prev);
    NothingAdded(out);
  }

  /** `encrypt_secure_string`: the text is padded, and then encrypted block by block. */
  method EncryptLoop(c: Cipher, plain: string) returns (out: seq<byte>)
    ensures out == Encrypt(c, plain)
  {
    hide CbcEncrypt, XorBlock, Little, Utf16, Repeat;
    var padded := Little(Utf16(plain));
    var pad := 16 - |padded| % 16;
    padded := padded + Repeat(pad, pad);
    out := EncryptBlocks(c, padded);
  }

  lemma EncryptNothing(c: Cipher, prev: Block)
    ensures CbcEncrypt(c, prev, []) == [] && CbcDecrypt(c, prev, []) == []
  {
  }

  lemma DecryptStep(c: Cipher, prev: Block, text: seq<byte>)
    requires |text| >= 16
    ensures CbcDecrypt(c, prev, text) == XorBlock(c.dec(text[..16]), prev) + CbcDecrypt(c, text[..16], text[16..])
  {
    hide XorBlock;
  }

  method DecryptBlock(c: Cipher, prev: Block, text: seq<byte>) returns (r: Block)
    requires |text| >= 16
    ensures CbcDecrypt(c, prev, text) == r + CbcDecrypt(c, text[..16], text[16..])
  {
    hide CbcDecrypt, XorBlock;
    var first: Block := text[..16];
    var inner := c.dec(first);
    var block := CopyBlock(inner);
    assert inner[..16] == inner;
    XorInto(block, prev);
    DecryptStep(c, prev, text);
    assert |block[..]| == 16;
    r := block[..];
  }

  method DecryptBlocks(c: Cipher, payload: seq<byte>) returns (out: seq<byte>)
    requires |payload| % 16 == 0
    ensures out == CbcDecrypt(c, IV, payload)
  {
    hide CbcDecrypt, XorBlock;
    out := [];
    var prev: Block := IV;
    assert payload[0..] == payload && [] + CbcDecrypt(c, IV, payload) == CbcDecrypt(c, IV, payload);
    for i := 0 to |payload| / 16
      invariant out + CbcDecrypt(c, prev, payload[16 * i..]) == CbcDecrypt(c, IV, payload)
    {
      var rest := payload[16 * i..];
      Slide(payload, i);
      var plain := DecryptBlock(c, prev, rest);
      prev := rest[..16];
      Regroup(out, plain, CbcDecrypt(c, prev, payload[16 * (i + 1)..]));
      out := out + plain;
    }
    assert payload[16 * (|payload| / 16)..] == [];
    EncryptNothing(c, prev);
    assert out + [] == out;
  }

  /** The padding check walks the padding and cuts it off the buffer. */
  method StripPadding(text: seq<byte>) returns (r: Result<seq<byte>, Refusal>)
    ensures r == Unpad(text)
  {
    if text == [] {
      return Err(BadPadding);
    }
    var pad := text[|text| - 1];
    if pad == 0 || pad > 16 || pad > |text| {
      return Err(BadPadding);
    }
    var start := |text| - pad;
    for i := start to |text|
      invariant forall j :: start <= j < i ==> text[j] == pad
    {
      if text[i] != pad {
        return Err(BadPadding);
      }
    }
    return Ok(text[..start]);
  }

  method DecryptLoop(c: Cipher, payload: seq<byte>) returns (r: Result<string, Refusal>)
    ensures r == Decrypt(c, payload)
  {
    hide CbcDecrypt, Unpad, Units, FromUtf16;
    if |payload| < 16 || |payload| % 16 != 0 {
      return Err(Malformed);
    }
    var text := DecryptBlocks(c, payload);
    var body :- StripPadding(text);
    if |body| % 2 != 0 {
      return Err(NotAligned);
    }
    var s := FromUtf16(Units(body));
    return if s.Some? then Ok(s.value) else Err(NotUtf16);
  }
}
