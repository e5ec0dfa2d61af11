/** The PSRP fragment layer of `src/fragment.rs` (section 2.2.4 of MS-PSRP). */
module Fragments {
  import opened Common
  import opened Numbers

  type u64 = n: nat | n <= U64_MAX

  const MAX_FRAGMENT_PAYLOAD: nat := 32768
  const HEADER_LEN: nat := 21

  /** The longest `Vec<u8>` Rust can hold. */
  const MAX_VEC: nat := 0x7FFF_FFFF_FFFF_FFFF

  datatype Fragment = Fragment(objectId: u64, fragmentId: u64, start: bool, end: bool, blob: seq<byte>)

  function Flags(f: Fragment): byte {
    (if f.start then 1 else 0) + (if f.end then 2 else 0)
  }

  /** `Fragment::encode`. */
  function Encode(f: Fragment): seq<byte> {
    ToBe(f.objectId, 8) + ToBe(f.fragmentId, 8) + [Flags(f)] + ToBe(Min(|f.blob|, U32_MAX), 4) + f.blob
  }

  function EncodeAll(fs: seq<Fragment>): seq<byte> {
    if fs == [] then [] else Encode(fs[0]) + EncodeAll(fs[1..])
  }

  /** The fragments of `payload` from number `k` on. */
  function SplitFrom(objectId: u64, payload: seq<byte>, k: u64): seq<Fragment>
    requires k + |payload| <= U64_MAX
    decreases |payload|
  {
    if |payload| <= MAX_FRAGMENT_PAYLOAD then [Fragment(objectId, k, k == 0, true, payload)]
    else
      [Fragment(objectId, k, k == 0, false, payload[..MAX_FRAGMENT_PAYLOAD])]
      + SplitFrom(objectId, payload[MAX_FRAGMENT_PAYLOAD..], k + 1)
  }

  function Split(objectId: u64, payload: seq<byte>): seq<Fragment>
    requires |payload| <= MAX_VEC
  {
    SplitFrom(objectId, payload, 0)
  }

  lemma SplitNothing(objectId: u64)
    ensures Split(objectId, []) == [Fragment(objectId, 0, true, true, [])]
  {
  }

  lemma SplitStep(objectId: u64, rest: seq<byte>, k: u64, n: nat)
    requires k + |rest| <= MAX_VEC && rest != [] && n == Min(|rest|, MAX_FRAGMENT_PAYLOAD)
    ensures SplitFrom(objectId, rest, k)
         == [Fragment(objectId, k, k == 0, rest[n..] == [], rest[..n])]
            + (if rest[n..] == [] then [] else SplitFrom(objectId, rest[n..], k + 1))
  {
    assert n == |rest| ==> rest[..n] == rest;
  }

  /** `split_message`: the chunk loop builds exactly `Split`. */
  method SplitMessage(objectId: u64, payload: seq<byte>) returns (out: seq<Fragment>)
    requires |payload| <= MAX_VEC
    ensures out == Split(objectId, payload)
  {
    hide SplitFrom;
    if payload == [] {
      SplitNothing(objectId);
      return [Fragment(objectId, 0, true, true, [])];
    }
    out := [];
    var rest := payload;
    var fragmentId: nat := 0;
    while rest != []
      invariant fragmentId + |rest| <= MAX_VEC
      invariant rest == [] ==> out == Split(objectId, payload)
      invariant rest != [] ==> out + SplitFrom(objectId, rest, fragmentId) == Split(objectId, payload)
      decreases |rest|
    {
      var n := Min(|rest|, MAX_FRAGMENT_PAYLOAD);
      var chunk := rest[..n];
      var more := rest[n..];
      SplitStep(objectId, rest, fragmentId, n);
      out := out + [Fragment(objectId, fragmentId, fragmentId == 0, more == [], chunk)];
      rest, fragmentId := more, fragmentId + 1;
    }
  }

  /** `decode_one`: the first fragment of `buf` and its length, once all of it is there. */
  function DecodeOne(buf: seq<byte>): (r: Option<(Fragment, nat)>)
    ensures r.Some? ==> HEADER_LEN <= r.value.1 == HEADER_LEN + |r.value.0.blob| <= |buf|
  {
    if |buf| < HEADER_LEN then None
    else
      var len := FromBe(buf[17..21]);
      if |buf| < HEADER_LEN + len then None
      else
        Widths();
        FromBeBound(buf[..8]);
        FromBeBound(buf[8..16]);
        Some((Fragment(FromBe(buf[..8]), FromBe(buf[8..16]), buf[16] % 2 == 1, buf[16] / 2 % 2 == 1,
                       buf[HEADER_LEN..HEADER_LEN + len]),
              HEADER_LEN + len))
  }

  /** Every whole fragment of `buf`, and the bytes after the last. */
  function Parse(buf: seq<byte>): (seq<Fragment>, seq<byte>)
    decreases |buf|
  {
    match DecodeOne(buf)
    case None => ([], buf)
    case Some((f, n)) =>
      var (fs, rest) := Parse(buf[n..]);
      ([f] + fs, rest)
  }

  lemma DecodeOneExtends(a: seq<byte>, b: seq<byte>)
    requires DecodeOne(a).Some?
    ensures DecodeOne(a + b) == DecodeOne(a)
  {
    var c := a + b;
    assert c[17..21] == a[17..21] && c[..8] == a[..8] && c[8..16] == a[8..16] && c[16] == a[16];
    var len := FromBe(a[17..21]);
    assert c[21..21 + len] == a[21..21 + len];
  }

  lemma {:induction false} ParseAppend(a: seq<byte>, b: seq<byte>)
    ensures Parse(a + b) == (Parse(a).0 + Parse(Parse(a).1 + b).0, Parse(Parse(a).1 + b).1)
    decreases |a|
  {
    hide DecodeOne;
    match DecodeOne(a)
    case None =>
      assert [] + Parse(a + b).0 == Parse(a + b).0;
    case Some((f, n)) =>
      DecodeOneExtends(a, b);
      assert (a + b)[n..] == a[n..] + b;
      ParseAppend(a[n..], b);
      assert [f] + (Parse(a[n..]).0 + Parse(Parse(a).1 + b).0) == ([f] + Parse(a[n..]).0) + Parse(Parse(a).1 + b).0;
  }

  lemma DecodeEncoded(f: Fragment, rest: seq<byte>)
    requires |f.blob| <= U32_MAX
    ensures DecodeOne(Encode(f) + rest) == Some((f, |Encode(f)|))
  {
    Widths();
    FromBeOfToBe(f.objectId, 8);
    FromBeOfToBe(f.fragmentId, 8);
    FromBeOfToBe(|f.blob|, 4);
    hide ToBe, FromBe;
    var b := Encode(f) + rest;
    assert b[..8] == ToBe(f.objectId, 8) && b[8..16] == ToBe(f.fragmentId, 8) && b[16] == Flags(f)
        && b[17..21] == ToBe(|f.blob|, 4) && b[21..21 + |f.blob|] == f.blob;
  }

  lemma {:induction false} ParseEncoded(fs: seq<Fragment>)
    requires forall f :: f in fs ==> |f.blob| <= U32_MAX
    ensures Parse(EncodeAll(fs)) == (fs, [])
  {
    hide Parse, Encode;
    if fs == [] {
      NothingToParse([]);
    } else {
      ParseEncodedFirst(fs[0], EncodeAll(fs[1..]));
      ParseEncoded(fs[1..]);
      assert fs == [fs[0]] + fs[1..];
    }
  }

  lemma ParseEncodedFirst(f: Fragment, rest: seq<byte>)
    requires |f.blob| <= U32_MAX
    ensures Parse(Encode(f) + rest) == ([f] + Parse(rest).0, Parse(rest).1)
  {
    hide Parse, DecodeOne, Encode;
    DecodeEncoded(f, rest);
    ParseFirst(Encode(f) + rest, f, |Encode(f)|);
    assert (Encode(f) + rest)[|Encode(f)|..] == rest;
  }

  // ---- Reassembly ----

  datatype InFlight = InFlight(buf: seq<byte>, next: u64, started: bool)

  datatype FragmentError = DuplicateStart | NonZeroStart | ContinuationBeforeStart | OutOfOrder | IdOverflow

  /** What the reassembler remembers besides its byte buffer. */
  datatype Table = Table(inFlight: map<u64, InFlight>, completedOrder: seq<u64>)

  /** One fragment: the new table (the entry exists even after an error) and what it completes. */
  datatype Absorbed = Absorbed(table: Table, out: seq<seq<byte>>, used: nat, error: Option<FragmentError>)

  function Step(t: Table, f: Fragment): (Table, Result<seq<seq<byte>>, FragmentError>) {
    var entry := if f.objectId in t.inFlight then t.inFlight[f.objectId] else InFlight([], 0, false);
    var touched := t.(inFlight := t.inFlight[f.objectId := entry]);
    if f.start && entry.started then (touched, Err(DuplicateStart))
    else if f.start && f.fragmentId != 0 then (touched, Err(NonZeroStart))
    else if !f.start && !entry.started then (touched, Err(ContinuationBeforeStart))
    else
      var begun := if f.start then InFlight(entry.buf, 0, true) else entry;
      var marked := t.(inFlight := t.inFlight[f.objectId := begun]);
      if f.fragmentId != begun.next then (marked, Err(OutOfOrder))
      else if f.fragmentId == U64_MAX then (marked, Err(IdOverflow))
      else
        var buf := begun.buf + f.blob;
        if f.end then
          (Table(t.inFlight - {f.objectId}, t.completedOrder + [f.objectId]), Ok([buf]))
        else
          (t.(inFlight := t.inFlight[f.objectId := InFlight(buf, f.fragmentId + 1, true)]), Ok([]))
  }

  /** A run of fragments, up to and including the first that fails. */
  function Absorb(t: Table, fs: seq<Fragment>): (r: Absorbed)
    ensures r.used <= |fs|
    ensures r.error.None? ==> r.used == |fs|
    ensures r.error.Some? ==> 0 < r.used
  {
    if fs == [] then Absorbed(t, [], 0, None)
    else
      var before := Absorb(t, fs[..|fs| - 1]);
      if before.error.Some? then before
      else
        match Step(before.table, fs[|fs| - 1])
        case (t', Err(e)) => Absorbed(t', before.out, |fs|, Some(e))
        case (t', Ok(done)) => Absorbed(t', before.out + done, |fs|, None)
  }

  lemma {:induction false} AbsorbAppend(t: Table, a: seq<Fragment>, b: seq<Fragment>)
    ensures var x := Absorb(t, a);
      Absorb(t, a + b) ==
        if x.error.Some? then x
        else var y := Absorb(x.table, b); Absorbed(y.table, x.out + y.out, |a| + y.used, y.error)
  {
    hide Step;
    if b == [] {
      assert a + b == a;
      assert Absorb(t, a).out + [] == Absorb(t, a).out;
    } else {
      var front := b[..|b| - 1];
      assert (a + b)[..|a + b| - 1] == a + front;
      AbsorbAppend(t, a, front);
      var x := Absorb(t, a);
      if x.error.None? && Absorb(x.table, front).error.None? {
        match Step(Absorb(x.table, front).table, b[|b| - 1])
        case (t', Err(e)) =>
        case (t', Ok(done)) =>
          assert x.out + (Absorb(x.table, front).out + done) == (x.out + Absorb(x.table, front).out) + done;
      }
    }
  }

  /** How many bytes the first `n` fragments of `buf` take. */
  function Size(fs: seq<Fragment>): nat {
    if fs == [] then 0 else HEADER_LEN + |fs[0].blob| + Size(fs[1..])
  }

  lemma {:induction false} ParseSize(buf: seq<byte>)
    ensures |buf| == Size(Parse(buf).0) + |Parse(buf).1|
    ensures Parse(buf).1 == buf[Size(Parse(buf).0)..]
    decreases |buf|
  {
    match DecodeOne(buf)
    case None =>
    case Some((f, n)) =>
      ParseSize(buf[n..]);
      assert Parse(buf).0[1..] == Parse(buf[n..]).0;
  }

  lemma {:induction false} SizeAppend(a: seq<Fragment>, b: seq<Fragment>)
    ensures Size(a + b) == Size(a) + Size(b)
  {
    if a == [] {
      assert a + b == b;
    } else {
      assert (a + b)[1..] == a[1..] + b;
      SizeAppend(a[1..], b);
    }
  }

  /** A reassembler between two calls. */
  datatype State = State(buffer: seq<byte>, table: Table)

  const IDLE: State := State([], Table(map[], []))

  datatype Fed = Fed(state: State, result: Result<seq<seq<byte>>, FragmentError>)

  /** One call of `feed`: the new state, and the completed payloads or the first error. */
  function Feed(st: State, bytes: seq<byte>): Fed {
    var (fs, rest) := Parse(st.buffer + bytes);
    var r := Absorb(st.table, fs);
    match r.error
    case None => Fed(State(rest, r.table), Ok(r.out))
    case Some(e) =>
      ParseSize(st.buffer + bytes);
      SizeAppend(fs[..r.used], fs[r.used..]);
      assert fs == fs[..r.used] + fs[r.used..];
      Fed(State((st.buffer + bytes)[Size(fs[..r.used])..], r.table), Err(e))
  }

  /** `Reassembler`. */
  class Reassembler {
    var buffer: seq<byte>
    var inFlight: map<u64, InFlight>
    var completedOrder: seq<u64>

    function Abstract(): State
      reads this
    {
      State(buffer, Table(inFlight, completedOrder))
    }

    constructor ()
      ensures Abstract() == IDLE
    {
      buffer, inFlight, completedOrder := [], map[], [];
    }

    /** The body of the `feed` loop: one decoded fragment. */
    method AcceptFragment(f: Fragment) returns (r: Result<seq<seq<byte>>, FragmentError>)
      modifies this`inFlight, this`completedOrder
      ensures (Table(inFlight, completedOrder), r) == Step(old(Table(inFlight, completedOrder)), f)
    {
      var entry := if f.objectId in inFlight then inFlight[f.objectId] else InFlight([], 0, false);
      inFlight := inFlight[f.objectId := entry];
      if f.start {
        if entry.started {
          return Err(DuplicateStart);
        }
        if f.fragmentId != 0 {
          return Err(NonZeroStart);
        }
        entry := entry.(started := true, next := 0);
        inFlight := inFlight[f.objectId := entry];
      } else if !entry.started {
        return Err(ContinuationBeforeStart);
      }
      if f.fragmentId != entry.next {
        return Err(OutOfOrder);
      }
      if f.fragmentId == U64_MAX {
        return Err(IdOverflow);
      }
      entry := entry.(next := f.fragmentId + 1, buf := entry.buf + f.blob);
      inFlight := inFlight[f.objectId := entry];
      assert inFlight == old(inFlight)[f.objectId := entry];
      if f.end {
        inFlight := inFlight - {f.objectId};
        assert inFlight == old(inFlight) - {f.objectId};
        completedOrder := completedOrder + [f.objectId];
        return Ok([entry.buf]);
      }
      return Ok([]);
    }

    /** `feed`: drains whole fragments one by one, keeping what is left for the next call. */
    method FeedBytes(bytes: seq<byte>) returns (r: Result<seq<seq<byte>>, FragmentError>)
      modifies this
      ensures Fed(Abstract(), r) == Feed(old(Abstract()), bytes)
    {
      hide DecodeOne, Step, Parse;
      buffer := buffer + bytes;
      ghost var all := buffer;
      ghost var t0 := old(Abstract()).table;
      ghost var done: seq<Fragment> := [];
      var completed: seq<seq<byte>> := [];
      assert Parse(all).0 == [] + Parse(all).0;
      while DecodeOne(buffer).Some?
        invariant Parse(all) == (done + Parse(buffer).0, Parse(buffer).1)
        invariant Absorb(t0, done) == Absorbed(Table(inFlight, completedOrder), completed, |done|, None)
        invariant Size(done) <= |all| && buffer == all[Size(done)..]
        decreases |buffer|
      {
        var (f, consumed) := DecodeOne(buffer).value;
        FeedStep(all, done, f, buffer, consumed);
        assert (done + [f])[..|done|] == done;
        buffer := buffer[consumed..];
        done := done + [f];
        var accepted := AcceptFragment(f);
        if accepted.Err? {
          AbsorbStops(t0, done, Parse(buffer).0);
          assert (done + Parse(buffer).0)[..|done|] == done;
          return Err(accepted.error);
        }
        completed := completed + accepted.value;
      }
      NothingToParse(buffer);
      assert done + [] == done;
      return Ok(completed);
    }

    /** `is_idle`. */
    predicate IsIdle()
      reads this
    {
      buffer == [] && inFlight == map[]
    }
  }

  lemma NothingToParse(buf: seq<byte>)
    requires DecodeOne(buf).None?
    ensures Parse(buf) == ([], buf)
  {
  }

  lemma ParseFirst(buf: seq<byte>, f: Fragment, n: nat)
    requires DecodeOne(buf) == Some((f, n))
    ensures n == HEADER_LEN + |f.blob| <= |buf|
    ensures Parse(buf) == ([f] + Parse(buf[n..]).0, Parse(buf[n..]).1)
  {
  }

  lemma FeedStep(all: seq<byte>, done: seq<Fragment>, f: Fragment, buffer: seq<byte>, n: nat)
    requires Size(done) <= |all| && buffer == all[Size(done)..]
    requires DecodeOne(buffer) == Some((f, n))
    requires Parse(all) == (done + Parse(buffer).0, Parse(buffer).1)
    ensures n <= |buffer|
    ensures Size(done + [f]) <= |all| && buffer[n..] == all[Size(done + [f])..]
    ensures Parse(all) == ((done + [f]) + Parse(buffer[n..]).0, Parse(buffer[n..]).1)
  {
    hide DecodeOne, Parse, Size;
    ParseFirst(buffer, f, n);
    SizeAppend(done, [f]);
    SizeOfOne(f);
    DropFurther(all, Size(done), n);
    Regroup(done, [f], Parse(buffer[n..]).0);
  }

  lemma SizeOfOne(f: Fragment)
    ensures Size([f]) == HEADER_LEN + |f.blob|
  {
    assert [f][1..] == [];
  }

  lemma DropFurther(s: seq<byte>, k: nat, n: nat)
    requires k + n <= |s|
    ensures s[k..][n..] == s[k + n..]
  {
  }

  /** After a failing fragment the rest is not looked at. */
  lemma AbsorbStops(t: Table, done: seq<Fragment>, rest: seq<Fragment>)
    requires Absorb(t, done).error.Some?
    ensures Absorb(t, done + rest) == Absorb(t, done)
  {
    AbsorbAppend(t, done, rest);
  }

  // ---- Chunk law ----

  /** Cutting the input anywhere changes nothing: same verdict, outputs concatenated, same final state. */
  lemma FeedSplit(st: State, a: seq<byte>, b: seq<byte>)
    ensures var first := Feed(st, a); var whole := Feed(st, a + b);
      if first.result.Err? then whole.result == first.result
      else
        var second := Feed(first.state, b);
        if second.result.Err? then whole.result == second.result
        else whole == Fed(second.state, Ok(first.result.value + second.result.value))
  {
    var x := st.buffer + a;
    assert st.buffer + (a + b) == x + b;
    ParseAppend(x, b);
    AbsorbAppend(st.table, Parse(x).0, Parse(Parse(x).1 + b).0);
  }

  /** A whole run of calls that all succeed. */
  function FeedAll(st: State, chunks: seq<seq<byte>>): Fed
    decreases |chunks|
  {
    if chunks == [] then Fed(st, Ok([]))
    else
      var first := Feed(st, chunks[0]);
      if first.result.Err? then first
      else
        var rest := FeedAll(first.state, chunks[1..]);
        if rest.result.Err? then rest else rest.(result := Ok(first.result.value + rest.result.value))
  }

  /** For any chunking, from a state whose buffer holds no whole fragment. */
  lemma {:induction false} FeedChunks(st: State, chunks: seq<seq<byte>>)
    requires DecodeOne(st.buffer).None?
    ensures FeedAll(st, chunks).result == Feed(st, Concat(chunks)).result
    ensures FeedAll(st, chunks).result.Ok? ==> FeedAll(st, chunks) == Feed(st, Concat(chunks))
    decreases |chunks|
  {
    if chunks == [] {
      assert st.buffer + [] == st.buffer;
    } else {
      FeedSplit(st, chunks[0], Concat(chunks[1..]));
      var first := Feed(st, chunks[0]);
      if first.result.Ok? {
        ParseLeavesNone(st.buffer + chunks[0]);
        FeedChunks(first.state, chunks[1..]);
      }
    }
  }

  lemma {:induction false} ParseLeavesNone(buf: seq<byte>)
    ensures DecodeOne(Parse(buf).1).None?
    decreases |buf|
  {
    hide DecodeOne;
    match DecodeOne(buf)
    case None =>
    case Some((f, n)) => ParseLeavesNone(buf[n..]);
  }
}
