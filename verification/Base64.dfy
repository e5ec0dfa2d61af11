/** The hand-written base64 codec of `src/clixml/encode.rs` (section 4 of RFC 4648). */
module Base64 {
  import opened Common

  type sextet = x: int | 0 <= x < 64

  /** `base64_char`. */
  function Symbol(v: sextet): char {
    if v < 26 then 'A' + v as char
    else if v < 52 then 'a' + (v - 26) as char
    else if v < 62 then '0' + (v - 52) as char
    else if v == 62 then '+' else '/'
  }

  predicate InAlphabet(c: char) {
    'A' <= c <= 'Z' || 'a' <= c <= 'z' || '0' <= c <= '9' || c == '+' || c == '/'
  }

  /** The value of an alphabet symbol (0 for anything else, which no caller reads). */
  function Value(c: char): sextet {
    if 'A' <= c <= 'Z' then c as int - 'A' as int
    else if 'a' <= c <= 'z' then c as int - 'a' as int + 26
    else if '0' <= c <= '9' then c as int - '0' as int + 52
    else if c == '+' then 62
    else if c == '/' then 63
    else 0
  }

  lemma ValueOfSymbol(v: sextet)
    ensures InAlphabet(Symbol(v)) && Value(Symbol(v)) == v
    ensures Symbol(v) != '=' && 42 < Symbol(v) as int < 127
  {
  }

  predicate Skipped(c: char) {
    c == ' ' || c == '\t' || c == '\r' || c == '\n'
  }

  // ---- Encoding ----

  function EncodeGroup(b0: byte, b1: byte, b2: byte): (s: string)
    ensures |s| == 4
  {
    [Symbol(b0 / 4), Symbol(b0 % 4 * 16 + b1 / 16), Symbol(b1 % 16 * 4 + b2 / 64), Symbol(b2 % 64)]
  }

  function Encode(bytes: seq<byte>): string {
    if |bytes| == 0 then ""
    else if |bytes| == 1 then EncodeGroup(bytes[0], 0, 0)[..2] + "=="
    else if |bytes| == 2 then EncodeGroup(bytes[0], bytes[1], 0)[..3] + "="
    else EncodeGroup(bytes[0], bytes[1], bytes[2]) + Encode(bytes[3..])
  }

  lemma EncodeMore(bytes: seq<byte>, i: nat)
    requires i + 3 <= |bytes|
    ensures Encode(bytes[i..]) == EncodeGroup(bytes[i], bytes[i + 1], bytes[i + 2]) + Encode(bytes[i + 3..])
  {
    hide EncodeGroup;
    assert bytes[i..][3..] == bytes[i + 3..];
  }

  /** `base64_encode`: whole groups in a loop, then the padded remainder. */
  method EncodeLoop(bytes: seq<byte>) returns (out: string)
    ensures out == Encode(bytes)
  {
    hide EncodeGroup;
    out := "";
    var i := 0;
    while i + 3 <= |bytes|
      invariant 0 <= i <= |bytes| && i % 3 == 0
      invariant out + Encode(bytes[i..]) == Encode(bytes)
    {
      EncodeMore(bytes, i);
      Regroup(out, EncodeGroup(bytes[i], bytes[i + 1], bytes[i + 2]), Encode(bytes[i + 3..]));
      out := out + EncodeGroup(bytes[i], bytes[i + 1], bytes[i + 2]);
      i := i + 3;
    }
    var rem := bytes[i..];
    if |rem| == 1 {
      out := out + EncodeGroup(rem[0], 0, 0)[..2] + "==";
    } else if |rem| == 2 {
      out := out + EncodeGroup(rem[0], rem[1], 0)[..3] + "=";
    }
  }

  // ---- Decoding: the four-symbol-group reading ----

  function Strip(s: string): string {
    if s == "" then "" else (if Skipped(s[0]) then "" else [s[0]]) + Strip(s[1..])
  }

  /** The three bytes that a group of four symbols spells. */
  function Byte0(c0: char, c1: char): byte { Value(c0) * 4 + Value(c1) / 16 }

  function Byte1(c1: char, c2: char): byte { Value(c1) % 16 * 16 + Value(c2) / 4 }

  function Byte2(c2: char, c3: char): byte { Value(c2) % 4 * 64 + Value(c3) }

  predicate AllInAlphabet(s: string) {
    forall i :: 0 <= i < |s| ==> InAlphabet(s[i])
  }

  function Values(s: string): (vs: seq<sextet>)
    ensures |vs| == |s|
  {
    seq(|s|, i requires 0 <= i < |s| => Value(s[i]))
  }

  /** Groups of four, `=` only closing the last one; the leftover bits are not looked at. */
  function DecodeGroups(s: string): Option<seq<byte>>
    requires |s| % 4 == 0
  {
    if s == "" then Some([])
    else if !(InAlphabet(s[0]) && InAlphabet(s[1])) then None
    else if |s| == 4 && s[3] == '=' && s[2] == '=' then Some([Byte0(s[0], s[1])])
    else if !InAlphabet(s[2]) then None
    else if |s| == 4 && s[3] == '=' then Some([Byte0(s[0], s[1]), Byte1(s[1], s[2])])
    else if !InAlphabet(s[3]) then None
    else
      match DecodeGroups(s[4..])
      case Some(rest) => Some([Byte0(s[0], s[1]), Byte1(s[1], s[2]), Byte2(s[2], s[3])] + rest)
      case None => None
  }

  /** What .NET's `Convert.FromBase64String` accepts and returns. */
  function Decode(text: string): Option<seq<byte>> {
    var s := Strip(text);
    if |s| % 4 != 0 then None else DecodeGroups(s)
  }

  // ---- Decoding: the streaming accumulator ----

  /** Bytes out, bits left over and their number after feeding some sextets. */
  datatype Stream = Stream(out: seq<byte>, left: nat, bits: nat)

  /** Two to the number of bits an accumulator can still hold. */
  function LeftLimit(bits: nat): (p: nat)
    ensures 0 < p
  {
    if bits == 0 then 1 else if bits == 2 then 4 else if bits == 4 then 16 else 64
  }

  ghost predicate Live(st: Stream) {
    (st.bits == 0 || st.bits == 2 || st.bits == 4 || st.bits == 6) && st.left < LeftLimit(st.bits)
  }

  /** One sextet through an accumulator that keeps only the bits not yet emitted. */
  ghost function Push(st: Stream, v: sextet): (r: Stream)
    requires Live(st)
    ensures Live(r)
  {
    if st.bits == 0 then Stream(st.out, v, 6)
    else if st.bits == 6 then Stream(st.out + [st.left * 4 + v / 16], v % 16, 4)
    else if st.bits == 4 then Stream(st.out + [st.left * 16 + v / 4], v % 4, 2)
    else Stream(st.out + [st.left * 64 + v], 0, 0)
  }

  ghost function Feed(vs: seq<sextet>): (st: Stream)
    ensures Live(st)
  {
    if vs == [] then Stream([], 0, 0) else Push(Feed(vs[..|vs| - 1]), vs[|vs| - 1])
  }

  /** `(buf << 6) | v` in 32 bits. */
  function ShiftIn(buf: nat, v: sextet): (acc: nat)
    ensures acc <= U32_MAX
  {
    buf * 64 % 0x1_0000_0000 + v
  }

  /** The low byte of `buf >> bits`. */
  function LowByte(buf: nat, bits: nat): byte {
    buf / LeftLimit(bits) % 256
  }

  lemma Split256(x: nat, q: int, r: nat)
    requires x == q * 256 + r && r < 256
    ensures x % 256 == r
  {
  }

  lemma Split16(x: nat, q: int, r: nat, t: nat)
    requires x == (q * 256 + r) * 16 + t && r < 256 && t < 16
    ensures x % 16 == t && x / 16 % 256 == r
  {
    assert x / 16 == q * 256 + r;
  }

  lemma Split4(x: nat, q: int, r: nat, t: nat)
    requires x == (q * 256 + r) * 4 + t && r < 256 && t < 4
    ensures x % 4 == t && x / 4 % 256 == r
  {
    assert x / 4 == q * 256 + r;
  }

  lemma Split64(x: nat, q: int, t: nat)
    requires x == q * 64 + t && t < 64
    ensures x % 64 == t
  {
  }

  /** Whatever the shift drops is a multiple of 2^32, so no live bit moves. */
  lemma Emits(buf: nat, v: sextet)
    ensures ShiftIn(buf, v) % 64 == v
    ensures ShiftIn(buf, v) % 16 == v % 16 && ShiftIn(buf, v) / 16 % 256 == buf % 64 * 4 + v / 16
    ensures ShiftIn(buf, v) % 4 == v % 4 && ShiftIn(buf, v) / 4 % 256 == buf % 16 * 16 + v / 4
    ensures ShiftIn(buf, v) % 256 == buf % 4 * 64 + v
  {
    var dropped := buf * 64 / 0x1_0000_0000;
    var acc := ShiftIn(buf, v);
    assert acc == buf * 64 + v - dropped * 0x1_0000_0000;
    Split64(acc, buf - dropped * 0x400_0000, v);
    Split16(acc, buf / 64 - dropped * 0x10_0000, buf % 64 * 4 + v / 16, v % 16);
    Split4(acc, buf / 16 - dropped * 0x40_0000, buf % 16 * 16 + v / 4, v % 4);
    Split256(acc, buf / 4 - dropped * 0x100_0000, buf % 4 * 64 + v);
  }

  /** The code's accumulator is never masked, only shifted inside 32 bits: it agrees on the live bits. */
  lemma UnmaskedAccumulator(buf: nat, st: Stream, v: sextet)
    requires Live(st) && buf % LeftLimit(st.bits) == st.left
    ensures ShiftIn(buf, v) % LeftLimit(Push(st, v).bits) == Push(st, v).left
    ensures st.bits == 0 ==> Push(st, v).bits == 6 && Push(st, v).out == st.out
    ensures st.bits != 0 ==>
      Push(st, v).bits == st.bits - 2 && Push(st, v).out == st.out + [LowByte(ShiftIn(buf, v), st.bits - 2)]
  {
    hide ShiftIn;
    Emits(buf, v);
  }

  lemma FeedOne(vs: seq<sextet>, v: sextet)
    ensures Feed(vs + [v]) == Push(Feed(vs), v)
  {
    hide Push;
    assert (vs + [v])[..|vs|] == vs;
  }

  /** Four more sextets close a group. */
  lemma FeedGroup(vs: seq<sextet>, v0: sextet, v1: sextet, v2: sextet, v3: sextet)
    requires Feed(vs).bits == 0
    ensures Feed(vs + [v0]) == Stream(Feed(vs).out, v0, 6)
    ensures Feed(vs + [v0, v1]) == Stream(Feed(vs).out + [v0 * 4 + v1 / 16], v1 % 16, 4)
    ensures Feed(vs + [v0, v1, v2]) ==
            Stream(Feed(vs).out + [v0 * 4 + v1 / 16, v1 % 16 * 16 + v2 / 4], v2 % 4, 2)
    ensures Feed(vs + [v0, v1, v2, v3]) ==
            Stream(Feed(vs).out + [v0 * 4 + v1 / 16, v1 % 16 * 16 + v2 / 4, v2 % 4 * 64 + v3], 0, 0)
  {
    hide Feed;
    var out := Feed(vs).out;
    FeedOne(vs, v0);
    assert vs + [v0, v1] == (vs + [v0]) + [v1];
    FeedOne(vs + [v0], v1);
    assert vs + [v0, v1, v2] == (vs + [v0, v1]) + [v2];
    FeedOne(vs + [v0, v1], v2);
    assert out + [v0 * 4 + v1 / 16, v1 % 16 * 16 + v2 / 4] == (out + [v0 * 4 + v1 / 16]) + [v1 % 16 * 16 + v2 / 4];
    assert vs + [v0, v1, v2, v3] == (vs + [v0, v1, v2]) + [v3];
    FeedOne(vs + [v0, v1, v2], v3);
  }

  /** How many `=` end `s`. */
  function Padding(s: string): (n: nat)
    ensures n <= |s|
    ensures forall i :: |s| - n <= i < |s| ==> s[i] == '='
    ensures n < |s| ==> s[|s| - n - 1] != '='
  {
    if s == "" || s[|s| - 1] != '=' then 0 else 1 + Padding(s[..|s| - 1])
  }

  /** The streaming reading, as a function: trailing padding off, then one accumulator. */
  ghost function Streaming(s: string): Option<seq<byte>>
    requires |s| % 4 == 0
  {
    if Padding(s) > 2 || !AllInAlphabet(s[..|s| - Padding(s)]) then None
    else Some(Feed(Values(s[..|s| - Padding(s)])).out)
  }

  lemma {:induction false} PaddingUnique(s: string, n: nat)
    requires n <= |s|
    requires forall i :: |s| - n <= i < |s| ==> s[i] == '='
    requires n < |s| ==> s[|s| - n - 1] != '='
    ensures Padding(s) == n
  {
    if n > 0 {
      PaddingUnique(s[..|s| - 1], n - 1);
    }
  }

  lemma PaddingTail(s: string)
    requires |s| > 4 && |s| % 4 == 0
    ensures Padding(s) <= 2 ==> Padding(s) == Padding(s[4..])
    ensures Padding(s) > 2 ==> Padding(s[4..]) > 2
  {
    var t, n := s[4..], Padding(s);
    assert forall i :: 0 <= i < |t| ==> t[i] == s[i + 4];
    if n < |t| {
      PaddingUnique(t, n);
    } else {
      PaddingUnique(t, |t|);
    }
  }

  lemma PushAfter(prefix: seq<byte>, st: Stream, v: sextet)
    requires Live(st)
    ensures Live(st.(out := prefix + st.out))
    ensures Push(st.(out := prefix + st.out), v) == Push(st, v).(out := prefix + Push(st, v).out)
  {
    hide LeftLimit;
  }

  /** Feeding whole groups first changes only what comes before. */
  lemma {:induction false} FeedAppend(a: seq<sextet>, b: seq<sextet>)
    requires Feed(a).bits == 0
    ensures Feed(a + b) == Feed(b).(out := Feed(a).out + Feed(b).out)
  {
    hide Push;
    if b == [] {
      assert a + b == a;
      assert Feed(a).out + [] == Feed(a).out;
      assert Feed([]) == Stream([], 0, 0);
      assert Feed(a).left == 0;
    } else {
      var n := |b| - 1;
      assert (a + b)[..|a + b| - 1] == a + b[..n];
      FeedAppend(a, b[..n]);
      PushAfter(Feed(a).out, Feed(b[..n]), b[n]);
    }
  }

  lemma ValuesAppend(a: string, b: string)
    ensures AllInAlphabet(a + b) <==> AllInAlphabet(a) && AllInAlphabet(b)
    ensures Values(a + b) == Values(a) + Values(b)
  {
    if AllInAlphabet(a + b) {
      assert forall i :: 0 <= i < |a| ==> a[i] == (a + b)[i];
      assert forall i :: 0 <= i < |b| ==> b[i] == (a + b)[i + |a|];
    }
  }

  lemma FeedFirstGroup(head: string, vs: seq<sextet>)
    requires |head| == 4
    ensures Feed(Values(head) + vs).out
         == [Byte0(head[0], head[1]), Byte1(head[1], head[2]), Byte2(head[2], head[3])] + Feed(vs).out
  {
    hide Value, Feed;
    FedNothing();
    FeedGroup([], Value(head[0]), Value(head[1]), Value(head[2]), Value(head[3]));
    assert [] + [Value(head[0]), Value(head[1]), Value(head[2]), Value(head[3])] == Values(head);
    FeedAppend(Values(head), vs);
  }

  lemma AllInAlphabetOf(s: string)
    ensures |s| == 2 ==> (AllInAlphabet(s) <==> InAlphabet(s[0]) && InAlphabet(s[1]))
    ensures |s| == 3 ==> (AllInAlphabet(s) <==> InAlphabet(s[0]) && InAlphabet(s[1]) && InAlphabet(s[2]))
    ensures |s| == 4 ==>
      (AllInAlphabet(s) <==> InAlphabet(s[0]) && InAlphabet(s[1]) && InAlphabet(s[2]) && InAlphabet(s[3]))
  {
  }

  /** Both readings agree on every text. */
  lemma {:induction false} StreamingIsGroups(s: string)
    requires |s| % 4 == 0
    ensures Streaming(s) == DecodeGroups(s)
  {
    hide Feed, InAlphabet, Byte0, Byte1, Byte2, AllInAlphabet;
    if s == "" {
      NoSymbols();
    } else if |s| == 4 && s[3] == '=' {
      PaddedGroup(s);
    } else {
      StreamingIsGroups(s[4..]);
      StreamingStep(s);
    }
  }

  /** What the first of several groups adds to the streaming reading. */
  lemma StreamingStep(s: string)
    requires |s| % 4 == 0 && 4 <= |s| && (|s| > 4 || s[3] != '=')
    ensures Streaming(s) ==
      if InAlphabet(s[0]) && InAlphabet(s[1]) && InAlphabet(s[2]) && InAlphabet(s[3]) && Streaming(s[4..]).Some?
      then Some([Byte0(s[0], s[1]), Byte1(s[1], s[2]), Byte2(s[2], s[3])] + Streaming(s[4..]).value)
      else None
  {
    hide Feed, InAlphabet, Byte0, Byte1, Byte2, AllInAlphabet, Values;
    var t := s[4..];
    if |s| > 4 {
      PaddingTail(s);
    } else {
      PaddingUnique(s, 0);
    }
    if Padding(s) <= 2 {
      var body := t[..|t| - Padding(t)];
      assert s[..|s| - Padding(s)] == s[..4] + body;
      ValuesAppend(s[..4], body);
      AllInAlphabetOf(s[..4]);
      FeedFirstGroup(s[..4], Values(body));
    }
  }

  lemma NoSymbols()
    ensures Streaming("") == DecodeGroups("") == Some([])
  {
    assert Values("") == [];
  }

  lemma FeedTwo(s: string)
    requires |s| == 2
    ensures Feed(Values(s)).out == [Byte0(s[0], s[1])]
  {
    hide Value, Feed;
    FedNothing();
    FeedGroup([], Value(s[0]), Value(s[1]), 0, 0);
    assert [] + [Value(s[0]), Value(s[1])] == Values(s);
  }

  lemma FeedThree(s: string)
    requires |s| == 3
    ensures Feed(Values(s)).out == [Byte0(s[0], s[1]), Byte1(s[1], s[2])]
  {
    hide Value, Feed;
    FedNothing();
    FeedGroup([], Value(s[0]), Value(s[1]), Value(s[2]), 0);
    assert [] + [Value(s[0]), Value(s[1]), Value(s[2])] == Values(s);
  }

  lemma FedNothing()
    ensures Feed([]) == Stream([], 0, 0)
  {
  }

  lemma PaddedOnce(s: string)
    requires |s| == 4 && s[3] == '=' && s[2] != '='
    ensures Streaming(s) == DecodeGroups(s)
  {
    hide InAlphabet, AllInAlphabet, Value, Values, Feed, Byte0, Byte1;
    PaddingUnique(s, 1);
    AllInAlphabetOf(s[..3]);
    FeedThree(s[..3]);
  }

  lemma PaddedTwice(s: string)
    requires |s| == 4 && s[3] == '=' && s[2] == '=' && s[1] != '='
    ensures Streaming(s) == DecodeGroups(s)
  {
    hide InAlphabet, AllInAlphabet, Value, Values, Feed, Byte0;
    PaddingUnique(s, 2);
    AllInAlphabetOf(s[..2]);
    FeedTwo(s[..2]);
  }

  lemma PaddedGroup(s: string)
    requires |s| == 4 && s[3] == '='
    ensures Streaming(s) == DecodeGroups(s)
  {
    if s[2] != '=' {
      PaddedOnce(s);
    } else if s[1] != '=' {
      PaddedTwice(s);
    } else if s[0] != '=' {
      PaddingUnique(s, 3);
    } else {
      PaddingUnique(s, 4);
    }
  }

  /** The accumulator loop of `base64_decode`, on the symbols before the padding. */
  method Accumulate(body: string) returns (r: Option<seq<byte>>)
    ensures r == if AllInAlphabet(body) then Some(Feed(Values(body)).out) else None
  {
    hide ShiftIn, LowByte, Push, Value, InAlphabet;
    var out: seq<byte> := [];
    var buf: nat, bits: nat := 0, 0;
    ghost var st := Stream([], 0, 0);
    for i := 0 to |body|
      invariant AllInAlphabet(body[..i])
      invariant st == Feed(Values(body[..i]))
      invariant out == st.out && bits == st.bits && buf % LeftLimit(bits) == st.left
    {
      if !InAlphabet(body[i]) {
        return None;
      }
      var v := Value(body[i]);
      UnmaskedAccumulator(buf, st, v);
      assert Values(body[..i + 1]) == Values(body[..i]) + [v];
      assert (Values(body[..i]) + [v])[..i] == Values(body[..i]);
      st := Push(st, v);
      buf := ShiftIn(buf, v);
      bits := bits + 6;
      if bits >= 8 {
        bits := bits - 8;
        out := out + [LowByte(buf, bits)];
      }
    }
    assert body[..|body|] == body;
    return Some(out);
  }

  method StripLoop(text: string) returns (symbols: string)
    ensures symbols == Strip(text)
  {
    hide Strip, Skipped;
    symbols := "";
    assert text[0..] == text;
    for i := 0 to |text|
      invariant symbols + Strip(text[i..]) == Strip(text)
    {
      StripMore(text, i);
      if !Skipped(text[i]) {
        Regroup(symbols, [text[i]], Strip(text[i + 1..]));
        symbols := symbols + [text[i]];
      }
    }
    StripEnd(text);
  }

  lemma StripMore(text: string, i: nat)
    requires i < |text|
    ensures Strip(text[i..]) == if Skipped(text[i]) then Strip(text[i + 1..]) else [text[i]] + Strip(text[i + 1..])
  {
    hide Skipped;
    assert text[i..][1..] == text[i + 1..];
    NothingBefore(Strip(text[i + 1..]));
  }

  lemma StripEnd(text: string)
    ensures Strip(text[|text|..]) == ""
  {
  }

  /** `base64_decode`: the loop with the unmasked 32-bit accumulator returns what `Decode` says. */
  method DecodeLoop(text: string) returns (r: Option<seq<byte>>)
    ensures r == Decode(text)
  {
    var symbols := StripLoop(text);
    if |symbols| % 4 != 0 {
      return None;
    }
    StreamingIsGroups(symbols);
    var padding := 0;
    while padding < |symbols| && symbols[|symbols| - 1 - padding] == '='
      invariant 0 <= padding <= |symbols|
      invariant forall i :: |symbols| - padding <= i < |symbols| ==> symbols[i] == '='
    {
      padding := padding + 1;
    }
    PaddingUnique(symbols, padding);
    if padding > 2 {
      return None;
    }
    r := Accumulate(symbols[..|symbols| - padding]);
  }

  // ---- Round trip ----

  lemma {:induction false} EncodeShape(bytes: seq<byte>)
    ensures |Encode(bytes)| == (|bytes| + 2) / 3 * 4
    ensures forall i :: 0 <= i < |Encode(bytes)| ==> 42 < Encode(bytes)[i] as int < 127 && Encode(bytes)[i] != '_'
  {
    hide Symbol;
    forall v: sextet ensures 42 < Symbol(v) as int < 127 && Symbol(v) != '_' { ValueOfSymbol(v); }
    if |bytes| > 2 {
      EncodeShape(bytes[3..]);
    }
  }

  lemma {:induction false} StripNothing(s: string)
    requires forall i :: 0 <= i < |s| ==> 42 < s[i] as int
    ensures Strip(s) == s
  {
    if s != "" {
      StripNothing(s[1..]);
      assert s == [s[0]] + s[1..];
    }
  }

  /** `g` spells the bytes `a`, `b`, `c`. */
  predicate Spells(g: string, a: byte, b: byte, c: byte) {
    && |g| == 4
    && InAlphabet(g[0]) && InAlphabet(g[1]) && InAlphabet(g[2]) && InAlphabet(g[3])
    && Byte0(g[0], g[1]) == a && Byte1(g[1], g[2]) == b && Byte2(g[2], g[3]) == c
  }

  lemma SpellsFromValues(g: string, a: byte, b: byte, c: byte)
    requires |g| == 4
    requires InAlphabet(g[0]) && InAlphabet(g[1]) && InAlphabet(g[2]) && InAlphabet(g[3])
    requires Value(g[0]) == a / 4 && Value(g[1]) == a % 4 * 16 + b / 16
    requires Value(g[2]) == b % 16 * 4 + c / 64 && Value(g[3]) == c % 64
    ensures Spells(g, a, b, c)
  {
    hide Value, InAlphabet;
  }

  lemma EncodedGroupDecodes(a: byte, b: byte, c: byte)
    ensures Spells(EncodeGroup(a, b, c), a, b, c)
  {
    hide Symbol, Value, InAlphabet, Spells;
    ValueOfSymbol(a / 4);
    ValueOfSymbol(a % 4 * 16 + b / 16);
    ValueOfSymbol(b % 16 * 4 + c / 64);
    ValueOfSymbol(c % 64);
    SpellsFromValues(EncodeGroup(a, b, c), a, b, c);
  }

  lemma DecodeGroupsStep(g: string, a: byte, b: byte, c: byte, rest: string)
    requires Spells(g, a, b, c) && |rest| % 4 == 0
    ensures DecodeGroups(g[..2] + "==") == Some([a])
    ensures DecodeGroups(g[..3] + "=") == Some([a, b])
    ensures DecodeGroups(g + rest) == match DecodeGroups(rest)
      case Some(r) => Some([a, b, c] + r)
      case None => None
  {
    assert (g + rest)[4..] == rest;
  }

  lemma {:induction false} DecodeEncodedGroups(bytes: seq<byte>)
    ensures |Encode(bytes)| % 4 == 0
    ensures DecodeGroups(Encode(bytes)) == Some(bytes)
    decreases |bytes|
  {
    hide Symbol, EncodeGroup, Spells, DecodeGroups;
    NoSymbols();
    if bytes != [] {
      var a, b, c := bytes[0], if |bytes| > 1 then bytes[1] else 0, if |bytes| > 2 then bytes[2] else 0;
      var rest := if |bytes| > 2 then bytes[3..] else [];
      EncodedGroupDecodes(a, b, c);
      DecodeEncodedGroups(rest);
      DecodeGroupsStep(EncodeGroup(a, b, c), a, b, c, Encode(rest));
      assert bytes == if |bytes| == 1 then [a] else if |bytes| == 2 then [a, b] else [a, b, c] + rest;
    }
  }

  /** Decoding undoes encoding, for every byte sequence. */
  lemma RoundTrip(bytes: seq<byte>)
    ensures Decode(Encode(bytes)) == Some(bytes)
  {
    EncodeShape(bytes);
    StripNothing(Encode(bytes));
    DecodeEncodedGroups(bytes);
  }

  // ---- Which texts come back ----

  predicate NoneSkipped(s: string) {
    forall i :: 0 <= i < |s| ==> !Skipped(s[i])
  }

  /** The bits of a padded last group that reach no byte are zero. */
  predicate NoLeftover(s: string) {
    |s| >= 4 && s[|s| - 1] == '=' ==>
      if s[|s| - 2] == '=' then Value(s[|s| - 3]) % 16 == 0 else Value(s[|s| - 2]) % 4 == 0
  }

  /** The form of section 3.5 of RFC 4648, which `base64_decode` does not insist on. */
  predicate Canonical(s: string) {
    NoneSkipped(s) && NoLeftover(s)
  }

  lemma SymbolOfValue(c: char)
    requires InAlphabet(c)
    ensures Symbol(Value(c)) == c && c != '='
  {
  }

  /** The six-bit pieces of the bytes that four sextets spell. */
  lemma Pieces(v0: sextet, v1: sextet, v2: sextet, v3: sextet)
    ensures var a, b, c := v0 * 4 + v1 / 16, v1 % 16 * 16 + v2 / 4, v2 % 4 * 64 + v3;
      && a / 4 == v0 && a % 4 == v1 / 16
      && b / 16 == v1 % 16 && b % 16 == v2 / 4
      && c / 64 == v2 % 4 && c % 64 == v3
  {
  }

  /** The symbols of the bytes that a group spells, whole or cut short by padding. */
  lemma GroupOfBytes(c0: char, c1: char, c2: char, c3: char)
    ensures EncodeGroup(Byte0(c0, c1), Byte1(c1, c2), Byte2(c2, c3))
         == [Symbol(Value(c0)), Symbol(Value(c1)), Symbol(Value(c2)), Symbol(Value(c3))]
  {
    hide Value, Symbol;
    Pieces(Value(c0), Value(c1), Value(c2), Value(c3));
  }

  /** A sextet without its low four bits, and without its low two. */
  function High2(v: sextet): sextet { v - v % 16 }

  function High4(v: sextet): sextet { v - v % 4 }

  lemma GroupOfOne(c0: char, c1: char)
    ensures EncodeGroup(Byte0(c0, c1), 0, 0)[..2] == [Symbol(Value(c0)), Symbol(High2(Value(c1)))]
  {
    hide Value, Symbol;
    Pieces(Value(c0), Value(c1), 0, 0);
  }

  lemma GroupOfTwo(c0: char, c1: char, c2: char)
    ensures EncodeGroup(Byte0(c0, c1), Byte1(c1, c2), 0)[..3]
         == [Symbol(Value(c0)), Symbol(Value(c1)), Symbol(High4(Value(c2)))]
  {
    hide Value, Symbol;
    Pieces(Value(c0), Value(c1), Value(c2), 0);
  }

  lemma SymbolsDiffer(v: sextet, c: char)
    requires InAlphabet(c)
    ensures Symbol(v) == c <==> v == Value(c)
  {
    ValueOfSymbol(v);
    SymbolOfValue(c);
  }

  /** The last group, if it is padded. */
  lemma PaddedReencodes(s: string)
    requires |s| == 4 && s[3] == '=' && DecodeGroups(s).Some?
    ensures Encode(DecodeGroups(s).value) == s <==> NoLeftover(s)
  {
    hide Value, Symbol, InAlphabet, EncodeGroup, Byte0, Byte1;
    SymbolOfValue(s[0]);
    SymbolOfValue(s[1]);
    if s[2] == '=' {
      GroupOfOne(s[0], s[1]);
      SymbolsDiffer(High2(Value(s[1])), s[1]);
      assert Encode(DecodeGroups(s).value) == [s[0], Symbol(High2(Value(s[1])))] + "==";
      assert s == [s[0], s[1]] + "==";
    } else {
      GroupOfTwo(s[0], s[1], s[2]);
      SymbolsDiffer(High4(Value(s[2])), s[2]);
      assert Encode(DecodeGroups(s).value) == [s[0], s[1], Symbol(High4(Value(s[2])))] + "=";
      assert s == [s[0], s[1], s[2]] + "=";
    }
  }

  lemma {:induction false} GroupsReencode(s: string)
    requires |s| % 4 == 0 && DecodeGroups(s).Some?
    ensures Encode(DecodeGroups(s).value) == s <==> NoLeftover(s)
  {
    hide Value, Symbol, InAlphabet, EncodeGroup, Byte0, Byte1, Byte2;
    if |s| == 4 && s[3] == '=' {
      PaddedReencodes(s);
    } else if s != "" {
      GroupsReencode(s[4..]);
      GroupOfBytes(s[0], s[1], s[2], s[3]);
      SymbolOfValue(s[0]);
      SymbolOfValue(s[1]);
      SymbolOfValue(s[2]);
      SymbolOfValue(s[3]);
      var head, rest := [Byte0(s[0], s[1]), Byte1(s[1], s[2]), Byte2(s[2], s[3])], DecodeGroups(s[4..]).value;
      assert (head + rest)[3..] == rest;
      assert Encode(head + rest) == [s[0], s[1], s[2], s[3]] + Encode(rest);
      assert s == [s[0], s[1], s[2], s[3]] + s[4..];
    }
  }

  lemma {:induction false} StripNoneSkipped(s: string)
    requires NoneSkipped(s)
    ensures Strip(s) == s
  {
    if s != "" {
      StripNoneSkipped(s[1..]);
      assert s == [s[0]] + s[1..];
    }
  }

  /** Encoding undoes decoding exactly on the canonical texts. */
  lemma EncodeOfDecode(s: string)
    requires Decode(s).Some?
    ensures Encode(Decode(s).value) == s <==> Canonical(s)
  {
    hide Encode, DecodeGroups, NoLeftover;
    if NoneSkipped(s) {
      StripNoneSkipped(s);
      GroupsReencode(s);
    } else {
      EncodeShape(Decode(s).value);
    }
  }

  /** A text it fails on: leftover bits are not checked, so two texts decode alike. */
  lemma NotCanonical(s: string)
    requires s == "Zh==" || s == "Zg=="
    ensures Decode(s) == Some([102]) && (Canonical(s) <==> s == "Zg==")
  {
    StripNothing(s);
    assert s[0] == 'Z' && s[2] == '=' && s[3] == '=' && |s| == 4;
    assert Value(s[0]) == 25 && (Value(s[1]) == 33 || Value(s[1]) == 32);
  }
}
