/** What the reassembler computes, said about the whole list of fragments it received. */
module Reassembly {
  import opened Common
  import opened Numbers
  import opened Fragments

  /** The fragments of `id` since its last end fragment. */
  function Open(fs: seq<Fragment>, id: u64): seq<Fragment> {
    if fs == [] then []
    else
      var front, last := Open(fs[..|fs| - 1], id), fs[|fs| - 1];
      if last.objectId != id then front
      else if last.end then []
      else front + [last]
  }

  function Blobs(fs: seq<Fragment>): seq<byte> {
    if fs == [] then [] else Blobs(fs[..|fs| - 1]) + fs[|fs| - 1].blob
  }

  /** One payload per end fragment, in the order of the end fragments. */
  function Payloads(fs: seq<Fragment>): seq<seq<byte>> {
    if fs == [] then []
    else
      var front, last := fs[..|fs| - 1], fs[|fs| - 1];
      Payloads(front) + (if last.end then [Blobs(Open(front, last.objectId)) + last.blob] else [])
  }

  /** Each fragment continues the open run of its object: numbered by it, `start` exactly on the first. */
  ghost predicate Orderly(fs: seq<Fragment>) {
    forall i :: 0 <= i < |fs| ==> Continues(fs[..i], fs[i])
  }

  predicate Continues(before: seq<Fragment>, f: Fragment) {
    && f.fragmentId == |Open(before, f.objectId)| < U64_MAX
    && (f.start <==> Open(before, f.objectId) == [])
  }

  /** The table after `fs`: one started entry per open object, numbered by the fragments seen. */
  ghost predicate Reflects(t: Table, fs: seq<Fragment>) {
    && (forall id: u64 :: id in t.inFlight <==> Open(fs, id) != [])
    && (forall id: u64 :: id in t.inFlight ==>
          && t.inFlight[id].started
          && t.inFlight[id].next == |Open(fs, id)|
          && t.inFlight[id].buf == Blobs(Open(fs, id)))
  }

  lemma StepReflects(t: Table, before: seq<Fragment>, f: Fragment)
    requires Reflects(t, before)
    ensures Step(t, f).1.Ok? <==> Continues(before, f)
    ensures Step(t, f).1.Ok? ==>
      && Step(t, f).1.value == (if f.end then [Blobs(Open(before, f.objectId)) + f.blob] else [])
      && Reflects(Step(t, f).0, before + [f])
  {
    var open := Open(before, f.objectId);
    assert (before + [f])[..|before|] == before;
    assert (open + [f])[..|open|] == open;
    assert open == [] ==> Blobs(open) == [];
    assert forall id: u64 :: id != f.objectId ==> Open(before + [f], id) == Open(before, id);
  }

  lemma OrderlySnoc(fs: seq<Fragment>)
    requires fs != []
    ensures Orderly(fs) <==> Orderly(fs[..|fs| - 1]) && Continues(fs[..|fs| - 1], fs[|fs| - 1])
  {
    hide Continues;
    var n := |fs| - 1;
    var front := fs[..n];
    assert forall i :: 0 <= i < n ==> front[..i] == fs[..i] && front[i] == fs[i];
    if Orderly(fs) {
      forall i | 0 <= i < n ensures Continues(front[..i], front[i]) {
        assert Continues(fs[..i], fs[i]);
      }
    }
    if Orderly(front) && Continues(front, fs[n]) {
      forall i | 0 <= i < |fs| ensures Continues(fs[..i], fs[i]) {
        if i < n { assert Continues(front[..i], front[i]); }
      }
    }
  }

  /** `feed` accepts exactly the orderly lists, and then returns and remembers what they spell. */
  lemma {:induction false} AbsorbIsExact(fs: seq<Fragment>)
    ensures var r := Absorb(Table(map[], []), fs);
      && (r.error.None? <==> Orderly(fs))
      && (r.error.None? ==> r.out == Payloads(fs) && Reflects(r.table, fs))
  {
    if fs != [] {
      hide Step, Continues, Orderly, Reflects;
      var front := fs[..|fs| - 1];
      AbsorbIsExact(front);
      OrderlySnoc(fs);
      if Orderly(front) {
        StepReflects(Absorb(Table(map[], []), front).table, front, fs[|fs| - 1]);
        assert fs == front + [fs[|fs| - 1]];
      }
    }
  }

  // ---- Interleaving ----

  datatype Message = Message(id: u64, payload: seq<byte>)

  /** The fragments of one object, in stream order. */
  function Of(fs: seq<Fragment>, id: u64): seq<Fragment> {
    if fs == [] then []
    else Of(fs[..|fs| - 1], id) + (if fs[|fs| - 1].objectId == id then [fs[|fs| - 1]] else [])
  }

  /** `fs` is the fragments of `ms`, each message's in order, mixed in any way. */
  ghost predicate Interleaves(fs: seq<Fragment>, ms: seq<Message>) {
    && (forall m :: m in ms ==> |m.payload| <= MAX_VEC)
    && (forall i, j :: 0 <= i < j < |ms| ==> ms[i].id != ms[j].id)
    && (forall m :: m in ms ==> Of(fs, m.id) == Split(m.id, m.payload))
    && (forall f :: f in fs ==> exists m :: m in ms && m.id == f.objectId)
  }

  lemma {:induction false} SplitShape(id: u64, payload: seq<byte>, k: u64, i: nat)
    requires k + |payload| <= U64_MAX && i < |SplitFrom(id, payload, k)|
    ensures var s := SplitFrom(id, payload, k);
      && s[i].objectId == id && s[i].fragmentId == k + i
      && (s[i].start <==> k + i == 0)
      && (s[i].end <==> i == |s| - 1)
      && |s[i].blob| <= MAX_FRAGMENT_PAYLOAD
      && k + |s| <= U64_MAX + 1 && |s| <= |payload| + 1
    decreases |payload|
  {
    if |payload| > MAX_FRAGMENT_PAYLOAD {
      SplitShape(id, payload[MAX_FRAGMENT_PAYLOAD..], k + 1, if i == 0 then 0 else i - 1);
    }
  }

  lemma {:induction false} BlobsAppend(a: seq<Fragment>, b: seq<Fragment>)
    ensures Blobs(a + b) == Blobs(a) + Blobs(b)
  {
    if b == [] {
      assert a + b == a;
    } else {
      assert (a + b)[..|a + b| - 1] == a + b[..|b| - 1];
      BlobsAppend(a, b[..|b| - 1]);
    }
  }

  /** The blobs of a split message are its payload. */
  lemma {:induction false} BlobsOfSplit(id: u64, payload: seq<byte>, k: u64)
    requires k + |payload| <= U64_MAX
    ensures Blobs(SplitFrom(id, payload, k)) == payload
    decreases |payload|
  {
    if |payload| <= MAX_FRAGMENT_PAYLOAD {
      assert Blobs(SplitFrom(id, payload, k)) == Blobs([]) + payload;
    } else {
      var head := Fragment(id, k, k == 0, false, payload[..MAX_FRAGMENT_PAYLOAD]);
      BlobsOfSplit(id, payload[MAX_FRAGMENT_PAYLOAD..], k + 1);
      BlobsAppend([head], SplitFrom(id, payload[MAX_FRAGMENT_PAYLOAD..], k + 1));
      assert Blobs([head]) == Blobs([]) + head.blob;
    }
  }

  /** Before its end fragment, everything seen of an object is still open. */
  lemma {:induction false} OpenIsAllSeen(fs: seq<Fragment>, id: u64)
    requires forall f :: f in Of(fs, id) ==> !f.end
    ensures Open(fs, id) == Of(fs, id)
  {
    if fs != [] {
      var front, last := fs[..|fs| - 1], fs[|fs| - 1];
      assert forall f :: f in Of(front, id) ==> f in Of(fs, id);
      assert last.objectId == id ==> last in Of(fs, id);
      OpenIsAllSeen(front, id);
    }
  }

  lemma {:induction false} OfPrefix(fs: seq<Fragment>, id: u64, i: nat)
    requires i <= |fs|
    ensures |Of(fs[..i], id)| <= |Of(fs, id)| && Of(fs[..i], id) == Of(fs, id)[..|Of(fs[..i], id)|]
    ensures i < |fs| && fs[i].objectId == id ==>
      |Of(fs[..i], id)| < |Of(fs, id)| && Of(fs, id)[|Of(fs[..i], id)|] == fs[i]
    decreases |fs| - i
  {
    if i < |fs| {
      assert fs[..i + 1][..i] == fs[..i];
      OfPrefix(fs, id, i + 1);
    } else {
      assert fs[..i] == fs;
    }
  }

  /** At every point of an interleaving, a fragment is next in its own message's split. */
  lemma PrefixIsOpen(fs: seq<Fragment>, ms: seq<Message>, i: nat)
    requires Interleaves(fs, ms) && i < |fs|
    ensures exists m :: m in ms && m.id == fs[i].objectId
    ensures forall m :: m in ms && m.id == fs[i].objectId ==>
      var s := Split(m.id, m.payload); var n := |Open(fs[..i], m.id)|;
      n < |s| && Open(fs[..i], m.id) == s[..n] && fs[i] == s[n]
  {
    assert fs[i] in fs;
    forall m | m in ms && m.id == fs[i].objectId
      ensures var s := Split(m.id, m.payload); var n := |Open(fs[..i], m.id)|;
        n < |s| && Open(fs[..i], m.id) == s[..n] && fs[i] == s[n]
    {
      OfPrefix(fs, m.id, i);
      var s, n := Split(m.id, m.payload), |Of(fs[..i], m.id)|;
      forall f | f in Of(fs[..i], m.id) ensures !f.end {
        var k :| 0 <= k < n && Of(fs[..i], m.id)[k] == f;
        SplitShape(m.id, m.payload, 0, k);
      }
      OpenIsAllSeen(fs[..i], m.id);
    }
  }

  function PayloadOf(ms: seq<Message>, id: u64): seq<byte> {
    if ms == [] then [] else if ms[0].id == id then ms[0].payload else PayloadOf(ms[1..], id)
  }

  lemma {:induction false} PayloadOfMember(ms: seq<Message>, m: Message)
    requires m in ms && forall i, j :: 0 <= i < j < |ms| ==> ms[i].id != ms[j].id
    ensures PayloadOf(ms, m.id) == m.payload
  {
    if ms[0] != m {
      var k :| 0 <= k < |ms| && ms[k] == m;
      assert ms[0].id != ms[k].id;
      PayloadOfMember(ms[1..], m);
    }
  }

  /** The payloads named by the end fragments of `fs`, in their order. */
  function InEndOrder(fs: seq<Fragment>, ms: seq<Message>): seq<seq<byte>> {
    if fs == [] then []
    else
      InEndOrder(fs[..|fs| - 1], ms)
      + (if fs[|fs| - 1].end then [PayloadOf(ms, fs[|fs| - 1].objectId)] else [])
  }

  lemma EndCompletes(fs: seq<Fragment>, ms: seq<Message>, i: nat)
    requires Interleaves(fs, ms) && i < |fs| && fs[i].end
    ensures Blobs(Open(fs[..i], fs[i].objectId)) + fs[i].blob == PayloadOf(ms, fs[i].objectId)
  {
    PrefixIsOpen(fs, ms, i);
    hide Interleaves, Open;
    var f := fs[i];
    var m :| m in ms && m.id == f.objectId;
    var s, n := Split(m.id, m.payload), |Open(fs[..i], m.id)|;
    SplitShape(m.id, m.payload, 0, n);
    assert s == s[..n] + [f];
    BlobsAppend(s[..n], [f]);
    assert Blobs([f]) == Blobs([]) + f.blob;
    BlobsOfSplit(m.id, m.payload, 0);
    InterleavedIdsDistinct(fs, ms);
    PayloadOfMember(ms, m);
  }

  lemma InterleavedIdsDistinct(fs: seq<Fragment>, ms: seq<Message>)
    requires Interleaves(fs, ms)
    ensures forall m :: m in ms ==> |m.payload| <= MAX_VEC
    ensures forall i, j :: 0 <= i < j < |ms| ==> ms[i].id != ms[j].id
  {
  }

  lemma {:induction false} PayloadsOfPrefix(fs: seq<Fragment>, ms: seq<Message>, i: nat)
    requires Interleaves(fs, ms) && i <= |fs|
    ensures Payloads(fs[..i]) == InEndOrder(fs[..i], ms)
  {
    hide Interleaves, Open, Blobs, PayloadOf;
    if i > 0 {
      assert fs[..i][..i - 1] == fs[..i - 1];
      PayloadsOfPrefix(fs, ms, i - 1);
      if fs[i - 1].end {
        EndCompletes(fs, ms, i - 1);
      }
    }
  }

  /** After all of a message's fragments nothing of it is open. */
  lemma {:induction false} NothingOpen(fs: seq<Fragment>, id: u64)
    requires Of(fs, id) != [] ==> Of(fs, id)[|Of(fs, id)| - 1].end
    ensures Open(fs, id) == []
  {
    if fs != [] {
      var front, last := fs[..|fs| - 1], fs[|fs| - 1];
      if last.objectId != id {
        assert Of(front, id) + [] == Of(fs, id) == Of(front, id);
        NothingOpen(front, id);
      }
    }
  }

  lemma InterleavingIsOrderly(fs: seq<Fragment>, ms: seq<Message>)
    requires Interleaves(fs, ms)
    ensures Orderly(fs)
    ensures forall id: u64 :: Open(fs, id) == []
  {
    forall i | 0 <= i < |fs| ensures Continues(fs[..i], fs[i]) {
      PrefixIsOpen(fs, ms, i);
      var m :| m in ms && m.id == fs[i].objectId;
      SplitShape(m.id, m.payload, 0, |Open(fs[..i], m.id)|);
    }
    forall id: u64 ensures Open(fs, id) == [] {
      if m :| m in ms && m.id == id {
        SplitShape(m.id, m.payload, 0, |Split(m.id, m.payload)| - 1);
      } else {
        NotTheirs(fs, id, ms);
      }
      NothingOpen(fs, id);
    }
  }

  lemma {:induction false} NotTheirs(fs: seq<Fragment>, id: u64, ms: seq<Message>)
    requires forall f :: f in fs ==> f.objectId != id || exists m :: m in ms && m.id == f.objectId
    requires !exists m :: m in ms && m.id == id
    ensures Of(fs, id) == []
  {
    if fs != [] {
      assert fs[|fs| - 1] in fs;
      NotTheirs(fs[..|fs| - 1], id, ms);
    }
  }

  lemma InterleavedBlobsAreSmall(fs: seq<Fragment>, ms: seq<Message>)
    requires Interleaves(fs, ms)
    ensures forall f :: f in fs ==> |f.blob| <= U32_MAX
  {
    forall f | f in fs ensures |f.blob| <= U32_MAX {
      var i :| 0 <= i < |fs| && fs[i] == f;
      PrefixIsOpen(fs, ms, i);
      var m :| m in ms && m.id == f.objectId;
      SplitShape(m.id, m.payload, 0, |Open(fs[..i], m.id)|);
    }
  }

  /** Any interleaving, cut into any chunks: each payload once and intact, in end order, then idle. */
  lemma InterleavedMessagesArrive(fs: seq<Fragment>, ms: seq<Message>, chunks: seq<seq<byte>>)
    requires Interleaves(fs, ms)
    requires Concat(chunks) == EncodeAll(fs)
    ensures var r := FeedAll(IDLE, chunks);
      && r.result == Ok(InEndOrder(fs, ms))
      && r.state.buffer == [] && r.state.table.inFlight == map[]
  {
    InterleavedBlobsAreSmall(fs, ms);
    AbsorbIsExact(fs);
    InterleavingIsOrderly(fs, ms);
    PayloadsOfPrefix(fs, ms, |fs|);
    assert fs[..|fs|] == fs;
    assert Absorb(Table(map[], []), fs).table.inFlight.Keys == {};
    hide Interleaves, Orderly, Reflects, Payloads, InEndOrder, Absorb, Open;
    FeedChunks(IDLE, chunks);
    ParseEncoded(fs);
    assert IDLE.buffer + Concat(chunks) == EncodeAll(fs);
  }

  // ---- Cut short ----

  lemma EndEmits(t: Table, fs: seq<Fragment>)
    requires fs != [] && fs[|fs| - 1].end && Absorb(t, fs).error.None?
    ensures Absorb(t, fs).out != []
  {
  }

  /** A stream that ends with an end fragment and is cut anywhere before its end gives fewer payloads. */
  lemma CutGivesLess(fs: seq<Fragment>, bytes: seq<byte>, rest: seq<byte>) returns (more: seq<seq<byte>>)
    requires forall f :: f in fs ==> |f.blob| <= U32_MAX
    requires fs != [] && fs[|fs| - 1].end && EncodeAll(fs) == bytes + rest && rest != []
    requires Absorb(Table(map[], []), fs).error.None?
    ensures var r := Absorb(Table(map[], []), Parse(bytes).0);
      r.error.None? && more != [] && Absorb(Table(map[], []), fs).out == r.out + more
  {
    hide Parse, Absorb, EncodeAll, Size;
    ParseEncoded(fs);
    ParseAppend(bytes, rest);
    ParseSize(bytes);
    var first, left := Parse(bytes).0, Parse(bytes).1;
    ParseSize(left + rest);
    var last := Parse(left + rest).0;
    NothingHasNoSize();
    assert last != [];
    assert fs[|fs| - 1] == last[|last| - 1];
    AbsorbAppend(Table(map[], []), first, last);
    var x := Absorb(Table(map[], []), first);
    EndEmits(x.table, last);
    more := Absorb(x.table, last).out;
  }

  lemma NothingHasNoSize()
    ensures Size([]) == 0
  {
  }

  // ---- Exactly once ----

  /** The objects that end, in the order they end. */
  function EndIds(fs: seq<Fragment>): seq<u64> {
    if fs == [] then []
    else EndIds(fs[..|fs| - 1]) + (if fs[|fs| - 1].end then [fs[|fs| - 1].objectId] else [])
  }

  function Ids(ms: seq<Message>): (r: seq<u64>)
    ensures |r| == |ms| && forall i :: 0 <= i < |ms| ==> r[i] == ms[i].id
  {
    seq(|ms|, i requires 0 <= i < |ms| => ms[i].id)
  }

  function PayloadsAt(ids: seq<u64>, ms: seq<Message>): (r: seq<seq<byte>>)
    ensures |r| == |ids| && forall i :: 0 <= i < |ids| ==> r[i] == PayloadOf(ms, ids[i])
  {
    seq(|ids|, i requires 0 <= i < |ids| => PayloadOf(ms, ids[i]))
  }

  lemma {:induction false} EndIdsName(fs: seq<Fragment>, ms: seq<Message>)
    ensures InEndOrder(fs, ms) == PayloadsAt(EndIds(fs), ms)
  {
    hide PayloadOf;
    if fs != [] {
      EndIdsName(fs[..|fs| - 1], ms);
    }
  }

  function Ends(fs: seq<Fragment>): nat {
    if fs == [] then 0 else Ends(fs[..|fs| - 1]) + if fs[|fs| - 1].end then 1 else 0
  }

  lemma {:induction false} EndsPerObject(fs: seq<Fragment>, id: u64)
    ensures multiset(EndIds(fs))[id] == Ends(Of(fs, id))
  {
    if fs != [] {
      var front, last := fs[..|fs| - 1], fs[|fs| - 1];
      EndsPerObject(front, id);
      if last.objectId == id {
        assert (Of(front, id) + [last])[..|Of(front, id)|] == Of(front, id);
      } else {
        assert Of(front, id) + [] == Of(front, id);
      }
    }
  }

  lemma {:induction false} NoEnd(fs: seq<Fragment>, ms: seq<Message>)
    requires forall i :: 0 <= i < |fs| ==> !fs[i].end
    ensures Ends(fs) == 0 && InEndOrder(fs, ms) == []
  {
    if fs != [] {
      NoEnd(fs[..|fs| - 1], ms);
    }
  }

  lemma SplitEndsOnce(id: u64, payload: seq<byte>)
    requires |payload| <= MAX_VEC
    ensures Ends(Split(id, payload)) == 1
  {
    hide SplitFrom;
    var s := Split(id, payload);
    assert s != [] by { SplitIsNotEmpty(id, payload, 0); }
    forall i | 0 <= i < |s| ensures s[i].end <==> i == |s| - 1 {
      SplitShape(id, payload, 0, i);
    }
    NoEnd(s[..|s| - 1], []);
  }

  lemma SplitIsNotEmpty(id: u64, payload: seq<byte>, k: u64)
    requires k + |payload| <= U64_MAX
    ensures SplitFrom(id, payload, k) != []
  {
  }

  lemma {:induction false} CountIds(ms: seq<Message>, id: u64)
    requires forall i, j :: 0 <= i < j < |ms| ==> ms[i].id != ms[j].id
    ensures multiset(Ids(ms))[id] == if exists m :: m in ms && m.id == id then 1 else 0
  {
    if m :| m in ms && m.id == id {
      var k :| 0 <= k < |ms| && ms[k] == m;
      assert Ids(ms) == Ids(ms)[..k] + [id] + Ids(ms)[k + 1..];
      assert id !in Ids(ms)[..k] && id !in Ids(ms)[k + 1..];
    } else {
      assert id !in Ids(ms);
    }
  }

  /** Whatever the interleaving, every message comes out exactly once. */
  lemma EachMessageOnce(fs: seq<Fragment>, ms: seq<Message>)
    requires Interleaves(fs, ms)
    ensures multiset(EndIds(fs)) == multiset(Ids(ms)) && InEndOrder(fs, ms) == PayloadsAt(EndIds(fs), ms)
  {
    EndIdsName(fs, ms);
    hide InEndOrder, PayloadsAt, EndIds, Ids, Of, Split, Ends;
    forall id: u64 ensures multiset(EndIds(fs))[id] == multiset(Ids(ms))[id] {
      EndsPerObject(fs, id);
      CountIds(ms, id);
      if m :| m in ms && m.id == id {
        SplitEndsOnce(id, m.payload);
      } else {
        NotTheirs(fs, id, ms);
        assert Ends([]) == 0 by { NoEnd([], []); }
      }
    }
  }

  // ---- Conservation ----

  function BlobBytes(fs: seq<Fragment>): nat {
    if fs == [] then 0 else BlobBytes(fs[..|fs| - 1]) + |fs[|fs| - 1].blob|
  }

  function TotalLength(parts: seq<seq<byte>>): nat {
    if parts == [] then 0 else TotalLength(parts[..|parts| - 1]) + |parts[|parts| - 1]|
  }

  /** Bytes held for incomplete objects. */
  ghost function Held(m: map<u64, InFlight>): nat {
    if m == map[] then 0
    else
      var id :| id in m;
      |m[id].buf| + Held(m - {id})
  }

  lemma {:induction false} HeldPick(m: map<u64, InFlight>, id: u64)
    requires id in m
    ensures Held(m) == |m[id].buf| + Held(m - {id})
    decreases |m|
  {
    var k :| k in m && Held(m) == |m[k].buf| + Held(m - {k});
    if k != id {
      HeldPick(m - {k}, id);
      HeldPick(m - {id}, k);
      assert m - {k} - {id} == m - {id} - {k};
    }
  }

  lemma StepConserves(t: Table, f: Fragment)
    requires Step(t, f).1.Ok?
    ensures Held(t.inFlight) + |f.blob| == Held(Step(t, f).0.inFlight) + TotalLength(Step(t, f).1.value)
  {
    var m, m' := t.inFlight, Step(t, f).0.inFlight;
    var was := if f.objectId in m then |m[f.objectId].buf| else 0;
    assert f.start ==> f.objectId !in m || !m[f.objectId].started;
    if f.objectId in m {
      HeldPick(m, f.objectId);
    } else {
      assert m - {f.objectId} == m;
    }
    if f.end {
      var out := Step(t, f).1.value;
      assert TotalLength(out) == TotalLength(out[..0]) + |out[0]|;
    } else {
      HeldPick(m', f.objectId);
      assert m' - {f.objectId} == m - {f.objectId};
    }
  }

  lemma {:induction false} TotalLengthAppend(a: seq<seq<byte>>, b: seq<seq<byte>>)
    ensures TotalLength(a + b) == TotalLength(a) + TotalLength(b)
  {
    if b == [] {
      assert a + b == a;
    } else {
      assert (a + b)[..|a + b| - 1] == a + b[..|b| - 1];
      TotalLengthAppend(a, b[..|b| - 1]);
    }
  }

  lemma {:induction false} AbsorbConserves(t: Table, fs: seq<Fragment>)
    requires Absorb(t, fs).error.None?
    ensures Held(t.inFlight) + BlobBytes(fs) == Held(Absorb(t, fs).table.inFlight) + TotalLength(Absorb(t, fs).out)
  {
    hide Step;
    if fs != [] {
      var front := fs[..|fs| - 1];
      AbsorbConserves(t, front);
      var before := Absorb(t, front);
      StepConserves(before.table, fs[|fs| - 1]);
      TotalLengthAppend(before.out, Step(before.table, fs[|fs| - 1]).1.value);
    }
  }

  lemma {:induction false} SizeIsBlobsAndHeaders(fs: seq<Fragment>)
    ensures Size(fs) == HEADER_LEN * |fs| + BlobBytes(fs)
  {
    if fs != [] {
      var front, last := fs[..|fs| - 1], fs[|fs| - 1];
      SizeIsBlobsAndHeaders(front);
      SizeAppend(front, [last]);
      assert fs == front + [last] && [last][1..] == [];
      assert Size([last]) == HEADER_LEN + |last.blob|;
    }
  }

  /** No byte is lost or made up: every successful call accounts for all it was given. */
  lemma FeedConserves(st: State, bytes: seq<byte>)
    requires Feed(st, bytes).result.Ok?
    ensures var r := Feed(st, bytes);
      |st.buffer| + Held(st.table.inFlight) + |bytes|
      == |r.state.buffer| + Held(r.state.table.inFlight) + TotalLength(r.result.value)
         + HEADER_LEN * |Parse(st.buffer + bytes).0|
  {
    var fs := Parse(st.buffer + bytes).0;
    ParseSize(st.buffer + bytes);
    AbsorbConserves(st.table, fs);
    SizeIsBlobsAndHeaders(fs);
  }
}
