/** What a pool reads: chunks, the messages they decode to, and the queue that hands them out in wire order. */
module Inbox {
  import opened Common
  import F = Fragments
  import M = Messages

  predicate IsHostCall(t: M.MessageType) {
    t.RunspacePoolHostCall? || t.PipelineHostCall?
  }

  function Reversed<T>(s: seq<T>): (r: seq<T>)
    ensures |r| == |s|
  {
    if s == [] then [] else Reversed(s[1..]) + [s[0]]
  }

  lemma {:induction false} ReversedTwice<T>(s: seq<T>)
    ensures Reversed(Reversed(s)) == s
  {
    if s != [] {
      ReversedTwice(s[1..]);
      ReversedSnoc(Reversed(s[1..]), s[0]);
      assert [s[0]] + s[1..] == s;
    }
  }

  lemma {:induction false} ReversedSnoc<T>(s: seq<T>, x: T)
    ensures Reversed(s + [x]) == [x] + Reversed(s)
  {
    if s == [] {
      assert [x][1..] == [] && s + [x] == [x];
    } else {
      assert (s + [x])[1..] == s[1..] + [x];
      ReversedSnoc(s[1..], x);
      assert ([x] + Reversed(s[1..])) + [s[0]] == [x] + (Reversed(s[1..]) + [s[0]]);
    }
  }

  /** The messages of whole payloads; `None` if one does not decode. */
  function DecodeAll(payloads: seq<seq<byte>>): Option<seq<M.Message>> {
    if payloads == [] then Some([])
    else
      match (M.Decode(payloads[0]), DecodeAll(payloads[1..]))
      case (Ok(m), Some(ms)) => Some([m] + ms)
      case _ => None
  }

  lemma DecodeNone()
    ensures DecodeAll([]) == Some([])
  {
  }

  lemma DecodeStep(payloads: seq<seq<byte>>)
    requires payloads != []
    ensures DecodeAll(payloads).Some? <==> M.Decode(payloads[0]).Ok? && DecodeAll(payloads[1..]).Some?
    ensures DecodeAll(payloads).Some? ==>
      DecodeAll(payloads).value == [M.Decode(payloads[0]).value] + DecodeAll(payloads[1..]).value
  {
    hide M.Decode;
  }

  lemma {:induction false} DecodeParts(a: seq<seq<byte>>, b: seq<seq<byte>>, ms: seq<M.Message>)
    requires DecodeAll(a + b) == Some(ms)
    ensures DecodeAll(a).Some? && DecodeAll(b).Some?
    ensures ms == DecodeAll(a).value + DecodeAll(b).value
  {
    hide M.Decode, DecodeAll;
    if a == [] {
      DecodeNone();
      assert a + b == b;
    } else {
      assert (a + b)[0] == a[0] && (a + b)[1..] == a[1..] + b;
      DecodeStep(a + b);
      DecodeStep(a);
      DecodeParts(a[1..], b, ms[1..]);
    }
  }

  lemma {:induction false} DecodeAllLength(payloads: seq<seq<byte>>)
    requires DecodeAll(payloads).Some?
    ensures |DecodeAll(payloads).value| == |payloads|
  {
    hide M.Decode, DecodeAll;
    if payloads == [] {
      DecodeNone();
    } else {
      DecodeStep(payloads);
      DecodeAllLength(payloads[1..]);
    }
  }

  /** The reassembler after some chunks, and the messages they brought. */
  datatype Arrival = Arrival(state: F.State, messages: seq<M.Message>)

  /** What one chunk brings; a chunk that cannot be read brings nothing, and leaves the reassembler as `feed` does. */
  function Brought(one: F.Fed): seq<M.Message> {
    if one.result.Ok? then DecodeAll(one.result.value).UnwrapOr([]) else []
  }

  /** What the chunks fed so far decode to, unreadable ones skipped. */
  function Arrivals(fed: seq<seq<byte>>): Arrival {
    if fed == [] then Arrival(F.IDLE, [])
    else
      var before := Arrivals(fed[..|fed| - 1]);
      var one := F.Feed(before.state, fed[|fed| - 1]);
      Arrival(one.state, before.messages + Brought(one))
  }

  lemma ArrivalsSnoc(fed: seq<seq<byte>>, chunk: seq<byte>)
    ensures var one := F.Feed(Arrivals(fed).state, chunk);
      Arrivals(fed + [chunk]) == Arrival(one.state, Arrivals(fed).messages + Brought(one))
  {
    hide F.Feed, Brought;
    assert (fed + [chunk])[..|fed|] == fed;
  }

  lemma {:induction false} FeedAllSnoc(st: F.State, chunks: seq<seq<byte>>, chunk: seq<byte>)
    ensures var r := F.FeedAll(st, chunks); var whole := F.FeedAll(st, chunks + [chunk]);
      if r.result.Err? then whole.result.Err?
      else
        var one := F.Feed(r.state, chunk);
        if one.result.Err? then whole.result.Err?
        else whole == F.Fed(one.state, Ok(r.result.value + one.result.value))
    decreases |chunks|
  {
    hide F.Feed;
    if chunks == [] {
      assert chunks + [chunk] == [chunk] && [chunk][1..] == [];
      var one := F.Feed(st, chunk);
      if one.result.Ok? { assert one.result.value + [] == [] + one.result.value; }
    } else {
      assert (chunks + [chunk])[1..] == chunks[1..] + [chunk] && (chunks + [chunk])[0] == chunks[0];
      var first := F.Feed(st, chunks[0]);
      FeedAllSnoc(first.state, chunks[1..], chunk);
      var rest := F.FeedAll(first.state, chunks[1..]);
      var one := F.Feed(rest.state, chunk);
      if first.result.Ok? && rest.result.Ok? && one.result.Ok? {
        assert first.result.value + (rest.result.value + one.result.value)
            == (first.result.value + rest.result.value) + one.result.value;
      }
    }
  }

  /** If every chunk can be read, what arrived is the messages of the payloads that `feed` completed. */
  lemma {:induction false} ArrivalsAreDecoded(fed: seq<seq<byte>>)
    requires F.FeedAll(F.IDLE, fed).result.Ok? && DecodeAll(F.FeedAll(F.IDLE, fed).result.value).Some?
    ensures var r := F.FeedAll(F.IDLE, fed);
      Arrivals(fed) == Arrival(r.state, DecodeAll(r.result.value).value)
    decreases |fed|
  {
    hide F.Feed, DecodeAll;
    if fed == [] {
      DecodeNone();
    } else {
      hide F.FeedAll;
      var front, last := fed[..|fed| - 1], fed[|fed| - 1];
      assert fed == front + [last];
      FeedAllSnoc(F.IDLE, front, last);
      var r := F.FeedAll(F.IDLE, front);
      DecodeParts(r.result.value, F.Feed(r.state, last).result.value, DecodeAll(F.FeedAll(F.IDLE, fed).result.value).value);
      ArrivalsAreDecoded(front);
    }
  }

  /** The messages meant for readers. */
  function Readers(ms: seq<M.Message>): seq<M.Message> {
    if ms == [] then []
    else
      var m := ms[|ms| - 1];
      Readers(ms[..|ms| - 1]) + if IsHostCall(m.messageType) then [] else [m]
  }

  lemma ReadersSnoc(ms: seq<M.Message>, m: M.Message)
    ensures Readers(ms + [m]) == Readers(ms) + if IsHostCall(m.messageType) then [] else [m]
  {
    assert (ms + [m])[..|ms|] == ms;
  }

  /** What was taken, then what is queued (newest first), is what arrived. */
  predicate InOrder(arrived: seq<M.Message>, taken: seq<M.Message>, pending: seq<M.Message>) {
    arrived == taken + Reversed(pending)
  }

  /** `kept` is `taken` without some `failures` messages. */
  predicate KeptFrom(taken: seq<M.Message>, kept: seq<M.Message>, failures: nat) {
    if taken == [] then kept == [] && failures == 0
    else
      var front, last := taken[..|taken| - 1], taken[|taken| - 1];
      || (kept != [] && kept[|kept| - 1] == last && KeptFrom(front, kept[..|kept| - 1], failures))
      || (failures > 0 && KeptFrom(front, kept, failures - 1))
  }

  lemma KeepOrDrop(taken: seq<M.Message>, kept: seq<M.Message>, failures: nat, m: M.Message)
    requires KeptFrom(taken, kept, failures)
    ensures KeptFrom(taken + [m], kept + [m], failures) && KeptFrom(taken + [m], kept, failures + 1)
  {
    assert (taken + [m])[..|taken|] == taken && (kept + [m])[..|kept|] == kept;
  }

  /** The failures are the messages left out. */
  lemma {:induction false} FailuresAreMissing(taken: seq<M.Message>, kept: seq<M.Message>, failures: nat)
    requires KeptFrom(taken, kept, failures)
    ensures |kept| + failures == |taken| && (failures == 0 ==> kept == taken)
  {
    if taken != [] {
      var front, last := taken[..|taken| - 1], taken[|taken| - 1];
      if kept != [] && kept[|kept| - 1] == last && KeptFrom(front, kept[..|kept| - 1], failures) {
        FailuresAreMissing(front, kept[..|kept| - 1], failures);
      } else {
        FailuresAreMissing(front, kept, failures - 1);
      }
    }
  }

  lemma PopOrder(arrived: seq<M.Message>, taken: seq<M.Message>, pending: seq<M.Message>)
    requires InOrder(arrived, taken, pending) && pending != []
    ensures InOrder(arrived, taken + [pending[|pending| - 1]], pending[..|pending| - 1])
  {
    hide Reversed;
    var m, before := pending[|pending| - 1], pending[..|pending| - 1];
    assert pending == before + [m];
    ReversedSnoc(before, m);
    assert (taken + [m]) + Reversed(before) == taken + ([m] + Reversed(before));
  }

  /** A fresh batch, queued newest first behind nothing, keeps the order. */
  lemma QueueOrder(arrived: seq<M.Message>, taken: seq<M.Message>, batch: seq<M.Message>)
    requires InOrder(arrived, taken, [])
    ensures InOrder(arrived + batch, taken, Reversed(batch))
  {
    hide Reversed;
    ReversedTwice(batch);
    NothingReversed<M.Message>();
    assert taken + [] == taken;
  }

  lemma NothingReversed<T>()
    ensures Reversed<T>([]) == []
  {
  }

  /** What the transport gives next; what it has nothing more to give is not modelled. */
  datatype Incoming = Chunk(bytes: seq<byte>) | Failure

  /** A message `next_message` only passes on. */
  predicate Plain(m: M.Message) {
    !IsHostCall(m.messageType) && !m.messageType.EncryptedSessionKey? && !m.messageType.PublicKeyRequest?
  }

  predicate AllPlain(ms: seq<M.Message>) {
    forall i :: 0 <= i < |ms| ==> Plain(ms[i])
  }

  /** The messages of the chunks to come, if every one of them can be read. */
  function Ahead(incoming: seq<Incoming>, state: F.State): Option<seq<M.Message>> {
    if incoming == [] then Some([])
    else if incoming[0].Failure? || incoming[0].bytes == [] then None
    else
      var one := F.Feed(state, incoming[0].bytes);
      if one.result.Err? then None
      else
        match (DecodeAll(one.result.value), Ahead(incoming[1..], one.state))
        case (Some(ms), Some(rest)) => Some(ms + rest)
        case _ => None
  }

  /** The queue, oldest first, then what is still to come. */
  function Upcoming(pending: seq<M.Message>, incoming: seq<Incoming>, state: F.State): Option<seq<M.Message>> {
    match Ahead(incoming, state)
    case None => None
    case Some(rest) => Some(Reversed(pending) + rest)
  }

  lemma UpcomingPop(pending: seq<M.Message>, incoming: seq<Incoming>, state: F.State)
    requires pending != [] && Upcoming(pending, incoming, state).Some?
    ensures var q := Upcoming(pending, incoming, state).value;
      && q != [] && q[0] == pending[|pending| - 1]
      && Upcoming(pending[..|pending| - 1], incoming, state) == Some(q[1..])
  {
    hide Reversed, Ahead;
    var m, before := pending[|pending| - 1], pending[..|pending| - 1];
    assert pending == before + [m];
    ReversedSnoc(before, m);
    var rest := Ahead(incoming, state).value;
    assert ([m] + Reversed(before)) + rest == [m] + (Reversed(before) + rest);
  }

  lemma UpcomingRead(incoming: seq<Incoming>, state: F.State)
    requires incoming != [] && Upcoming([], incoming, state).Some?
    ensures incoming[0].Chunk? && incoming[0].bytes != []
    ensures var one := F.Feed(state, incoming[0].bytes);
      && one.result.Ok? && DecodeAll(one.result.value).Some?
      && Upcoming(Reversed(DecodeAll(one.result.value).value), incoming[1..], one.state) == Upcoming([], incoming, state)
  {
    hide Reversed, Ahead, F.Feed, DecodeAll;
    AheadStep(incoming, state);
    NothingReversed<M.Message>();
    var one := F.Feed(state, incoming[0].bytes);
    ReversedTwice(DecodeAll(one.result.value).value);
    NothingBefore(Ahead(incoming, state).value);
  }

  lemma AheadStep(incoming: seq<Incoming>, state: F.State)
    requires incoming != [] && Ahead(incoming, state).Some?
    ensures incoming[0].Chunk? && incoming[0].bytes != []
    ensures var one := F.Feed(state, incoming[0].bytes);
      && one.result.Ok? && DecodeAll(one.result.value).Some? && Ahead(incoming[1..], one.state).Some?
      && Ahead(incoming, state).value == DecodeAll(one.result.value).value + Ahead(incoming[1..], one.state).value
  {
    hide F.Feed, DecodeAll;
  }

  lemma UpcomingNothing(state: F.State)
    ensures Upcoming([], [], state) == Some([])
  {
    assert Reversed<M.Message>([]) + [] == [];
  }

  method DecodeLoop(payloads: seq<seq<byte>>) returns (r: Option<seq<M.Message>>)
    ensures r == DecodeAll(payloads)
  {
    hide M.Decode;
    var decoded: seq<M.Message> := [];
    assert payloads[0..] == payloads;
    if DecodeAll(payloads).Some? {
      assert decoded + DecodeAll(payloads).value == DecodeAll(payloads).value;
    }
    for i := 0 to |payloads|
      invariant DecodeAll(payloads)
             == if DecodeAll(payloads[i..]).Some? then Some(decoded + DecodeAll(payloads[i..]).value) else None
    {
      assert payloads[i..][1..] == payloads[i + 1..];
      var m := M.Decode(payloads[i]);
      if m.Err? {
        return None;
      }
      if DecodeAll(payloads[i + 1..]).Some? {
        assert (decoded + [m.value]) + DecodeAll(payloads[i + 1..]).value
            == decoded + ([m.value] + DecodeAll(payloads[i + 1..]).value);
      }
      decoded := decoded + [m.value];
    }
    assert payloads[|payloads|..] == [] && decoded + [] == decoded;
    return Some(decoded);
  }
}
