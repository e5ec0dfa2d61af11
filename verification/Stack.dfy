/** The layers together: messages into fragments, packets, lines and chunks, and back out of the pool. */
module Stack {
  import opened Common
  import F = Fragments
  import R = Reassembly
  import M = Messages
  import P = Packets
  import S = Server
  import Session
  import Runs
  import Lines
  import Text
  import Inbox
  import Pool

  /** A message to send, under its object id. */
  datatype Outgoing = Outgoing(id: F.u64, message: M.Message)

  predicate Sendable(ms: seq<Outgoing>) {
    && (forall i :: 0 <= i < |ms| ==> |M.Encode(ms[i].message)| <= F.MAX_VEC)
    && (forall i, j :: 0 <= i < j < |ms| ==> ms[i].id != ms[j].id)
  }

  function Wires(ms: seq<Outgoing>): (r: seq<R.Message>)
    ensures |r| == |ms| && forall i :: 0 <= i < |ms| ==> r[i] == R.Message(ms[i].id, M.Encode(ms[i].message))
  {
    if ms == [] then [] else [R.Message(ms[0].id, M.Encode(ms[0].message))] + Wires(ms[1..])
  }

  /** The fragments of the messages, one message after the other. */
  function Sequence(ws: seq<R.Message>): seq<F.Fragment>
    requires forall i :: 0 <= i < |ws| ==> |ws[i].payload| <= F.MAX_VEC
  {
    if ws == [] then [] else Sequence(ws[..|ws| - 1]) + F.Split(ws[|ws| - 1].id, ws[|ws| - 1].payload)
  }

  function PayloadsOf(ws: seq<R.Message>): (r: seq<seq<byte>>)
    ensures |r| == |ws| && forall i :: 0 <= i < |ws| ==> r[i] == ws[i].payload
  {
    seq(|ws|, i requires 0 <= i < |ws| => ws[i].payload)
  }

  // ---- Sending in sequence is one way to interleave ----

  lemma {:induction false} OfAppend(a: seq<F.Fragment>, b: seq<F.Fragment>, id: F.u64)
    ensures R.Of(a + b, id) == R.Of(a, id) + R.Of(b, id)
  {
    if b == [] {
      assert a + b == a;
    } else {
      assert (a + b)[..|a + b| - 1] == a + b[..|b| - 1];
      OfAppend(a, b[..|b| - 1], id);
      var last := if b[|b| - 1].objectId == id then [b[|b| - 1]] else [];
      assert (R.Of(a, id) + R.Of(b[..|b| - 1], id)) + last == R.Of(a, id) + (R.Of(b[..|b| - 1], id) + last);
    }
  }

  predicate AllOf(fs: seq<F.Fragment>, id: F.u64) {
    forall i :: 0 <= i < |fs| ==> fs[i].objectId == id
  }

  lemma {:induction false} OfOwn(fs: seq<F.Fragment>, id: F.u64, other: F.u64)
    requires AllOf(fs, id)
    ensures R.Of(fs, other) == if other == id then fs else []
  {
    if fs != [] {
      OfOwn(fs[..|fs| - 1], id, other);
      assert fs[..|fs| - 1] + [fs[|fs| - 1]] == fs;
    }
  }

  lemma SplitIsOwn(id: F.u64, payload: seq<byte>)
    requires |payload| <= F.MAX_VEC
    ensures AllOf(F.Split(id, payload), id)
  {
    hide F.SplitFrom;
    var s := F.Split(id, payload);
    forall i | 0 <= i < |s| ensures s[i].objectId == id {
      R.SplitShape(id, payload, 0, i);
    }
  }

  predicate Small(ws: seq<R.Message>) {
    forall i :: 0 <= i < |ws| ==> |ws[i].payload| <= F.MAX_VEC
  }

  predicate DistinctIds(ws: seq<R.Message>) {
    forall i, j :: 0 <= i < j < |ws| ==> ws[i].id != ws[j].id
  }

  lemma {:induction false} OfSequence(ws: seq<R.Message>, id: F.u64)
    requires Small(ws) && DistinctIds(ws)
    ensures forall i :: 0 <= i < |ws| && ws[i].id == id ==> R.Of(Sequence(ws), id) == F.Split(id, ws[i].payload)
    ensures (forall i :: 0 <= i < |ws| ==> ws[i].id != id) ==> R.Of(Sequence(ws), id) == []
  {
    hide F.Split, R.Of;
    if ws == [] {
      assert R.Of([], id) == [] by { OfNothing(id); }
    } else {
      var front, last := ws[..|ws| - 1], ws[|ws| - 1];
      OfSequence(front, id);
      SplitIsOwn(last.id, last.payload);
      OfOwn(F.Split(last.id, last.payload), last.id, id);
      OfAppend(Sequence(front), F.Split(last.id, last.payload), id);
      assert forall i :: 0 <= i < |front| ==> ws[i] == front[i];
    }
  }

  lemma OfNothing(id: F.u64)
    ensures R.Of([], id) == []
  {
  }

  lemma {:induction false} SequenceMembers(ws: seq<R.Message>)
    requires Small(ws)
    ensures forall f :: f in Sequence(ws) ==> exists i :: 0 <= i < |ws| && ws[i].id == f.objectId
  {
    hide F.Split;
    if ws != [] {
      var front, last := ws[..|ws| - 1], ws[|ws| - 1];
      SequenceMembers(front);
      SplitIsOwn(last.id, last.payload);
      forall f | f in Sequence(ws) ensures exists i :: 0 <= i < |ws| && ws[i].id == f.objectId {
        if f in Sequence(front) {
          var i :| 0 <= i < |front| && front[i].id == f.objectId;
          assert ws[i] == front[i];
        } else {
          assert ws[|ws| - 1].id == f.objectId;
        }
      }
    }
  }

  lemma SequenceInterleaves(ws: seq<R.Message>)
    requires Small(ws) && DistinctIds(ws)
    ensures R.Interleaves(Sequence(ws), ws)
  {
    hide F.Split, R.Of, Sequence;
    forall m | m in ws ensures R.Of(Sequence(ws), m.id) == F.Split(m.id, m.payload) {
      OfSequence(ws, m.id);
    }
    SequenceMembers(ws);
  }

  lemma {:induction false} InEndOrderAppend(a: seq<F.Fragment>, b: seq<F.Fragment>, ws: seq<R.Message>)
    ensures R.InEndOrder(a + b, ws) == R.InEndOrder(a, ws) + R.InEndOrder(b, ws)
  {
    hide R.PayloadOf;
    if b == [] {
      assert a + b == a;
    } else {
      assert (a + b)[..|a + b| - 1] == a + b[..|b| - 1];
      InEndOrderAppend(a, b[..|b| - 1], ws);
      var last := if b[|b| - 1].end then [R.PayloadOf(ws, b[|b| - 1].objectId)] else [];
      assert (R.InEndOrder(a, ws) + R.InEndOrder(b[..|b| - 1], ws)) + last
          == R.InEndOrder(a, ws) + (R.InEndOrder(b[..|b| - 1], ws) + last);
    }
  }

  /** Each message ends once: its fragments name its payload once. */
  lemma OneEnd(id: F.u64, payload: seq<byte>, ws: seq<R.Message>)
    requires |payload| <= F.MAX_VEC
    ensures R.InEndOrder(F.Split(id, payload), ws) == [R.PayloadOf(ws, id)]
  {
    hide F.SplitFrom, R.PayloadOf;
    var s := F.Split(id, payload);
    assert s != [] by { R.SplitIsNotEmpty(id, payload, 0); }
    forall i | 0 <= i < |s| ensures s[i].objectId == id && (s[i].end <==> i == |s| - 1) {
      R.SplitShape(id, payload, 0, i);
    }
    R.NoEnd(s[..|s| - 1], ws);
    assert [] + [R.PayloadOf(ws, id)] == [R.PayloadOf(ws, id)];
  }

  /** In sequence, the payloads come out in the order of the messages. */
  lemma {:induction false} EndOrderOfSequence(ws: seq<R.Message>, all: seq<R.Message>)
    requires Small(ws) && DistinctIds(all) && ws <= all
    ensures R.InEndOrder(Sequence(ws), all) == PayloadsOf(ws)
  {
    hide F.Split, R.PayloadOf, R.InEndOrder;
    if ws == [] {
      assert R.InEndOrder([], all) == [] by { R.NoEnd([], all); }
    } else {
      var front, last := ws[..|ws| - 1], ws[|ws| - 1];
      EndOrderOfSequence(front, all);
      OneEnd(last.id, last.payload, all);
      InEndOrderAppend(Sequence(front), F.Split(last.id, last.payload), all);
      assert all[|ws| - 1] == last;
      R.PayloadOfMember(all, last);
      assert PayloadsOf(front) + [last.payload] == PayloadsOf(ws);
    }
  }

  // ---- Messages out of payloads ----

  /** What each message is received as, in order. */
  function ReceivedAll(ms: seq<Outgoing>): (r: seq<M.Message>)
    ensures |r| == |ms|
  {
    if ms == [] then [] else [M.Received(ms[0].message)] + ReceivedAll(ms[1..])
  }

  lemma {:induction false} PayloadsDecode(ms: seq<Outgoing>)
    ensures Inbox.DecodeAll(PayloadsOf(Wires(ms))) == Some(ReceivedAll(ms))
  {
    hide M.Encode, M.Decode, M.Received;
    if ms == [] {
      assert PayloadsOf(Wires(ms)) == [];
    } else {
      assert PayloadsOf(Wires(ms))[1..] == PayloadsOf(Wires(ms[1..]));
      M.MessageRoundTrip(ms[0].message);
      PayloadsDecode(ms[1..]);
    }
  }

  /** Messages under canonical types, with no leading byte order mark, are received as they are. */
  lemma {:induction false} ReceivedUnchanged(ms: seq<Outgoing>)
    requires forall i :: 0 <= i < |ms| ==>
      M.Canonical(ms[i].message.messageType) && Text.StripBom(ms[i].message.data) == ms[i].message.data
    ensures forall i :: 0 <= i < |ms| ==> ReceivedAll(ms)[i] == ms[i].message
  {
    hide M.Canonical, Text.StripBom;
    if ms != [] {
      ReceivedUnchanged(ms[1..]);
      CanonicalIsKept(ms[0].message);
    }
  }

  lemma CanonicalIsKept(m: M.Message)
    requires M.Canonical(m.messageType) && Text.StripBom(m.data) == m.data
    ensures M.Received(m) == m
  {
    hide M.FromCode, M.ToCode, Text.StripBom;
  }

  // ---- Payloads through the pool ----

  function Chunks(payloads: seq<seq<byte>>): (r: seq<Inbox.Incoming>)
    ensures |r| == |payloads|
  {
    if payloads == [] then [] else [Inbox.Chunk(payloads[0])] + Chunks(payloads[1..])
  }

  predicate NoneEmpty(payloads: seq<seq<byte>>) {
    forall i :: 0 <= i < |payloads| ==> payloads[i] != []
  }

  /** A readable stream stays readable when it is cut short, and gives the first of its messages. */
  lemma {:induction false} AheadOfPrefix(st: F.State, payloads: seq<seq<byte>>, n: nat, ms: seq<M.Message>)
    requires n <= |payloads| && NoneEmpty(payloads)
    requires F.FeedAll(st, payloads).result.Ok? && Inbox.DecodeAll(F.FeedAll(st, payloads).result.value) == Some(ms)
    ensures Inbox.Ahead(Chunks(payloads[..n]), st).Some? && Inbox.Ahead(Chunks(payloads[..n]), st).value <= ms
    ensures n == |payloads| ==> Inbox.Ahead(Chunks(payloads[..n]), st) == Some(ms)
    decreases |payloads|
  {
    hide F.Feed, Inbox.DecodeAll;
    if payloads == [] {
      Inbox.DecodeNone();
    } else {
      var one := F.Feed(st, payloads[0]);
      var rest := F.FeedAll(one.state, payloads[1..]);
      Inbox.DecodeParts(one.result.value, rest.result.value, ms);
      if n > 0 {
        AheadOfPrefix(one.state, payloads[1..], n - 1, Inbox.DecodeAll(rest.result.value).value);
        assert payloads[..n][1..] == payloads[1..][..n - 1];
        AheadFirst(st, payloads[..n]);
      }
    }
  }

  lemma AheadFirst(st: F.State, payloads: seq<seq<byte>>)
    requires payloads != [] && payloads[0] != []
    ensures var one := F.Feed(st, payloads[0]);
      one.result.Ok? && Inbox.DecodeAll(one.result.value).Some? && Inbox.Ahead(Chunks(payloads[1..]), one.state).Some? ==>
        Inbox.Ahead(Chunks(payloads), st)
          == Some(Inbox.DecodeAll(one.result.value).value + Inbox.Ahead(Chunks(payloads[1..]), one.state).value)
  {
    hide F.Feed, Inbox.DecodeAll;
    assert Chunks(payloads)[1..] == Chunks(payloads[1..]);
  }

  // ---- Packets through the session ----

  function DataOf(ps: seq<P.Packet>): seq<seq<byte>> {
    if ps == [] then [] else (if ps[0].Data? then [ps[0].payload] else []) + DataOf(ps[1..])
  }

  lemma {:induction false} DataIsNonEmpty(ps: seq<P.Packet>)
    requires forall p :: p in ps ==> P.Welcome(p)
    ensures NoneEmpty(DataOf(ps))
  {
    hide P.IsAck;
    if ps != [] {
      assert P.Welcome(ps[0]);
      DataIsNonEmpty(ps[1..]);
    }
  }

  lemma {:induction false} PayloadsOfTexts(tokenize: P.Tokenizer, ps: seq<P.Packet>)
    requires P.Faithful(tokenize) && forall p :: p in ps ==> P.Welcome(p)
    ensures Session.Payloads(tokenize, P.Texts(ps)) == DataOf(ps)
  {
    hide P.LineText, P.ParseLine, P.Faithful;
    if ps != [] {
      assert ps[0] in ps && P.Welcome(ps[0]) && P.Sendable(ps[0]);
      P.LineRoundTrip(tokenize, ps[0]);
      assert P.Texts(ps)[0] == P.LineText(ps[0]) && P.Texts(ps)[1..] == P.Texts(ps[1..]);
      PayloadsOfTexts(tokenize, ps[1..]);
    }
  }

  lemma RecordEndsInNewline(records: seq<seq<byte>>)
    ensures records != [] ==> Lines.NEWLINE in Lines.Joined(records)
  {
    hide Lines.Joined;
    if records != [] {
      var tail := Lines.JoinedFirst(records);
      assert Lines.Joined(records)[|records[0]|] == Lines.NEWLINE;
    }
  }

  lemma TextsAreAcceptable(tokenize: P.Tokenizer, ps: seq<P.Packet>)
    requires P.Faithful(tokenize) && forall p :: p in ps ==> P.Welcome(p)
    ensures Session.AllAcceptable(tokenize, P.Texts(ps))
  {
    hide P.LineText, P.ParseLine, P.Faithful;
    forall i | 0 <= i < |ps| ensures Session.Acceptable(tokenize, P.Texts(ps)[i]) {
      assert ps[i] in ps && P.Welcome(ps[i]) && P.Sendable(ps[i]);
      P.LineRoundTrip(tokenize, ps[i]);
    }
  }

  /** The payloads of a server's lines, whatever chunks they come in; and no session refuses one of them. */
  lemma LinesCarryData(tokenize: P.Tokenizer, ps: seq<P.Packet>)
    requires P.Faithful(tokenize) && forall p :: p in ps ==> P.Welcome(p)
    ensures Session.Payloads(tokenize, Lines.Push(Lines.Splitter([], false), S.Wire(ps)).lines) == DataOf(ps)
    ensures Session.Harmless(tokenize, S.Wire(ps))
  {
    hide Lines.Push, Lines.Joined, Lines.AllSpell, P.Texts, P.ServerRecords, P.Faithful, P.IsAck,
         P.FitsLine, Session.Payloads, DataOf;
    P.ServerRecordsSpell(ps);
    var st := Lines.Splitter([], false);
    var records := P.ServerRecords(ps);
    assert st.buf + S.Wire(ps) + [] == Lines.Joined(records);
    var k := Lines.PushRecords(st, records, P.Texts(ps), S.Wire(ps), []);
    var p := Lines.Push(st, S.Wire(ps));
    assert p.splitter.buf + [] == p.splitter.buf;
    RecordEndsInNewline(records[k..]);
    assert P.Texts(ps)[..k] == P.Texts(ps);
    PayloadsOfTexts(tokenize, ps);
    TextsAreAcceptable(tokenize, ps);
  }

  // ---- The whole stack ----

  /** The server's packets carry the fragments of the messages, cut into any data that fits in lines, acks between. */
  predicate Carries(ps: seq<P.Packet>, ms: seq<Outgoing>)
    requires Sendable(ms)
  {
    (forall p :: p in ps ==> P.Welcome(p)) && Concat(DataOf(ps)) == F.EncodeAll(Sequence(Wires(ms)))
  }

  /** Any first payloads of such packets: the pool will read the first of the messages, in order. */
  lemma PayloadsCarryMessages(ps: seq<P.Packet>, ms: seq<Outgoing>, got: seq<seq<byte>>)
    requires Sendable(ms) && Carries(ps, ms) && got <= DataOf(ps)
    ensures Inbox.Ahead(Chunks(got), F.IDLE).Some? && Inbox.Ahead(Chunks(got), F.IDLE).value <= ReceivedAll(ms)
    ensures got == DataOf(ps) ==> Inbox.Ahead(Chunks(got), F.IDLE).value == ReceivedAll(ms)
  {
    hide Sequence, PayloadsOf, DataOf, Wires, P.Welcome, M.Encode, F.FeedAll, Inbox.DecodeAll, Inbox.Ahead, Chunks,
         R.Interleaves, R.InEndOrder;
    var ws := Wires(ms);
    assert Small(ws) && DistinctIds(ws);
    SequenceInterleaves(ws);
    R.InterleavedMessagesArrive(Sequence(ws), ws, DataOf(ps));
    EndOrderOfSequence(ws, ws);
    PayloadsDecode(ms);
    DataIsNonEmpty(ps);
    assert DataOf(ps)[..|got|] == got;
    AheadOfPrefix(F.IDLE, DataOf(ps), |got|, ReceivedAll(ms));
  }

  /** Concatenated payloads, some of them missing at the end. */
  lemma MissingBytes(got: seq<seq<byte>>, all: seq<seq<byte>>) returns (rest: seq<byte>)
    requires got <= all && got != all && NoneEmpty(all)
    ensures rest != [] && Concat(all) == Concat(got) + rest
  {
    hide Concat;
    var missing := all[|got|..];
    ConcatAppend(got, missing);
    assert all == got + missing;
    rest := Concat(missing);
    assert rest != [] by { FirstBytes(missing); }
  }

  lemma FirstBytes(payloads: seq<seq<byte>>)
    requires payloads != [] && payloads[0] != []
    ensures Concat(payloads) != []
  {
  }

  lemma SequenceEnds(ws: seq<R.Message>)
    requires Small(ws)
    ensures ws == [] ==> F.EncodeAll(Sequence(ws)) == []
    ensures ws != [] ==> Sequence(ws) != [] && Sequence(ws)[|Sequence(ws)| - 1].end
  {
    hide F.SplitFrom;
    if ws != [] {
      var last := ws[|ws| - 1];
      R.SplitIsNotEmpty(last.id, last.payload, 0);
      R.SplitShape(last.id, last.payload, 0, |F.Split(last.id, last.payload)| - 1);
    }
  }

  /** What `feed` makes of the first payloads, when some are missing: the first messages, not all of them. */
  lemma FedLess(fs: seq<F.Fragment>, ws: seq<R.Message>, got: seq<seq<byte>>, all: seq<seq<byte>>)
    returns (more: seq<seq<byte>>)
    requires R.Interleaves(fs, ws) && fs != [] && fs[|fs| - 1].end
    requires Concat(all) == F.EncodeAll(fs) && got <= all && got != all && NoneEmpty(all)
    ensures F.FeedAll(F.IDLE, got).result.Ok? && F.FeedAll(F.IDLE, all).result.Ok? && more != []
    ensures F.FeedAll(F.IDLE, all).result.value == F.FeedAll(F.IDLE, got).result.value + more
  {
    hide F.EncodeAll, F.Parse, F.Absorb, F.FeedAll, R.Interleaves, R.Of, Concat, R.InEndOrder;
    R.InterleavedMessagesArrive(fs, ws, all);
    R.InterleavedBlobsAreSmall(fs, ws);
    var rest := MissingBytes(got, all);
    F.FeedChunks(F.IDLE, all);
    F.FeedChunks(F.IDLE, got);
    F.ParseEncoded(fs);
    assert F.IDLE.buffer + Concat(got) == Concat(got) && F.IDLE.buffer + Concat(all) == Concat(all);
    more := R.CutGivesLess(fs, Concat(got), rest);
  }

  /** With payloads missing, the pool reads fewer messages. */
  lemma FewerMessages(ps: seq<P.Packet>, ms: seq<Outgoing>, got: seq<seq<byte>>)
    requires Sendable(ms) && Carries(ps, ms) && got <= DataOf(ps) && got != DataOf(ps)
    ensures Inbox.Ahead(Chunks(got), F.IDLE).Some? && |Inbox.Ahead(Chunks(got), F.IDLE).value| < |ms|
  {
    hide Sequence, PayloadsOf, DataOf, Wires, P.Welcome, M.Encode, F.FeedAll, Inbox.DecodeAll, Inbox.Ahead, Chunks,
         R.Interleaves, R.InEndOrder, F.EncodeAll, Concat;
    var ws := Wires(ms);
    assert Small(ws) && DistinctIds(ws);
    SequenceInterleaves(ws);
    R.InterleavedMessagesArrive(Sequence(ws), ws, DataOf(ps));
    EndOrderOfSequence(ws, ws);
    PayloadsDecode(ms);
    DataIsNonEmpty(ps);
    SequenceEnds(ws);
    if ws == [] {
      var rest := MissingBytes(got, DataOf(ps));
      assert false;
    }
    var more := FedLess(Sequence(ws), ws, got, DataOf(ps));
    var read := F.FeedAll(F.IDLE, got).result.value;
    Inbox.DecodeParts(read, more, ReceivedAll(ms));
    Inbox.DecodeAllLength(read);
    assert forall i :: 0 <= i < |got| ==> got[i] == DataOf(ps)[i];
    assert got[..|got|] == got;
    AheadOfPrefix(F.IDLE, got, |got|, Inbox.DecodeAll(read).value);
  }

  /**
   * Nothing cuts the reading short: receives only, a stream that does not end, and one receive for each data packet
   * and one more for each that is dropped waiting.
   */
  predicate Unhurried(ps: seq<P.Packet>, incoming: seq<Session.ReadOutcome>, ops: seq<Runs.Op>) {
    && (forall i :: 0 <= i < |ops| ==> ops[i].DoRecv?)
    && Session.NeverGone(incoming)
    && |DataOf(ps)| + Session.Drops(incoming) <= |ops|
  }

  /**
   * Messages sent through every layer, read by a session whose operations may each be dropped anywhere,
   * and handed to a pool: what the reader gets is the first of the messages, whole and in order. If nothing
   * cuts the reading short it is all of them exactly when the session's queue has room for the data that any
   * one chunk completes.
   */
  method Deliver(tokenize: P.Tokenizer, ms: seq<Outgoing>, ps: seq<P.Packet>, incoming: seq<Session.ReadOutcome>,
                 ops: seq<Runs.Op>, maxQueued: nat, pool: Pool.RunspacePool)
    returns (read: seq<M.Message>)
    requires P.Faithful(tokenize) && Sendable(ms) && Carries(ps, ms)
    requires Session.BytesOf(incoming) == S.Wire(ps) && Inbox.AllPlain(ReceivedAll(ms))
    requires pool.deferred == [] && pool.pending == [] && pool.reassembler.Abstract() == F.IDLE
    modifies pool, pool.reassembler
    ensures read <= ReceivedAll(ms)
    ensures Unhurried(ps, incoming, ops) ==>
      (read == ReceivedAll(ms) <==> Session.Roomy(tokenize, [], incoming, maxQueued))
  {
    hide P.Faithful, Sendable, Carries, S.Wire, Session.BytesOf, DataOf, ReceivedAll, Inbox.Plain, Session.Payloads,
         Lines.Push, Inbox.Ahead, Session.Harmless, Session.TotalCost, Session.Drops, Session.Roomy;
    var trace, log, torn, sends := Runs.RunAgainstAnyPeer(tokenize, incoming, ops, maxQueued);
    CarriesWelcome(ps, ms);
    LinesCarryData(tokenize, ps);
    PayloadsCarryMessages(ps, ms, trace.got);
    if trace.got != DataOf(ps) {
      FewerMessages(ps, ms, trace.got);
    }
    pool.Attach(Chunks(trace.got));
    QueueIsEmpty(Chunks(trace.got));
    PlainPrefix(Inbox.Ahead(Chunks(trace.got), F.IDLE).value, ReceivedAll(ms));
    var end;
    read, end := Pool.ReadAll(pool);
  }

  lemma CarriesWelcome(ps: seq<P.Packet>, ms: seq<Outgoing>)
    requires Sendable(ms) && Carries(ps, ms)
    ensures forall p :: p in ps ==> P.Welcome(p)
  {
  }

  lemma QueueIsEmpty(incoming: seq<Inbox.Incoming>)
    ensures Inbox.Upcoming([], incoming, F.IDLE) == Inbox.Ahead(incoming, F.IDLE)
  {
    hide Inbox.Ahead;
    assert Inbox.Reversed<M.Message>([]) == [];
    if Inbox.Ahead(incoming, F.IDLE).Some? {
      NothingBefore(Inbox.Ahead(incoming, F.IDLE).value);
    }
  }

  lemma PlainPrefix(a: seq<M.Message>, b: seq<M.Message>)
    requires a <= b && Inbox.AllPlain(b)
    ensures Inbox.AllPlain(a)
  {
    hide Inbox.Plain;
  }
}
