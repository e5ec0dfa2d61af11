/** The line splitter of `src/out_of_proc/packet.rs`. */
module Lines {
  import opened Common
  import opened Text

  const MAX_LINE_BYTES: nat := 0x10_0000
  const NEWLINE: byte := 10
  const CR: byte := 13

  datatype LineError = TooLong | NotUtf8

  /** Bytes of the line being assembled, and whether a first line was completed. */
  datatype Splitter = Splitter(buf: seq<byte>, seenFirst: bool)

  datatype Pushed = Pushed(lines: seq<string>, splitter: Splitter, error: Option<LineError>)

  /** Index of the first newline, or the length. */
  function NewlineAt(b: seq<byte>): (i: nat)
    ensures i <= |b|
  {
    if b == [] || b[0] == NEWLINE then 0 else 1 + NewlineAt(b[1..])
  }

  lemma {:induction false} NewlineAtIsFirst(b: seq<byte>)
    ensures NEWLINE !in b[..NewlineAt(b)]
    ensures NewlineAt(b) < |b| ==> b[NewlineAt(b)] == NEWLINE
  {
    if b != [] && b[0] != NEWLINE {
      NewlineAtIsFirst(b[1..]);
      assert b[..NewlineAt(b)] == [b[0]] + b[1..][..NewlineAt(b[1..])];
    }
  }

  function StripCr(line: seq<byte>): seq<byte> {
    if line != [] && line[|line| - 1] == CR then line[..|line| - 1] else line
  }

  /** `finish_line`. */
  function FinishLine(seenFirst: bool, line: seq<byte>): Result<string, LineError> {
    if |line| > MAX_LINE_BYTES then Err(TooLong)
    else match FromUtf8(StripCr(line))
         case None => Err(NotUtf8)
         case Some(text) => Ok(if seenFirst then text else StripBom(text))
  }

  /** `LineSplitter::push`: the lines completed before the first error, and that error. */
  function Push(st: Splitter, bytes: seq<byte>): Pushed
    decreases |bytes|
  {
    var i := NewlineAt(bytes);
    if i == |bytes| then
      if |st.buf| + i > MAX_LINE_BYTES then Pushed([], st, Some(TooLong))
      else Pushed([], st.(buf := st.buf + bytes), None)
    else if |st.buf| + i > MAX_LINE_BYTES then Pushed([], st, Some(TooLong))
    else
      match FinishLine(st.seenFirst, st.buf + bytes[..i])
      case Err(e) => Pushed([], st.(buf := []), Some(e))
      case Ok(line) =>
        var rest := Push(Splitter([], true), bytes[i + 1..]);
        rest.(lines := [line] + rest.lines)
  }

  /** The buffer is part of one line: no newline, no longer than a line may be. */
  predicate Partial(buf: seq<byte>) {
    NEWLINE !in buf && |buf| <= MAX_LINE_BYTES
  }

  lemma {:induction false} PushKeepsPartial(st: Splitter, bytes: seq<byte>)
    requires Partial(st.buf)
    ensures Partial(Push(st, bytes).splitter.buf)
    decreases |bytes|
  {
    var i := NewlineAt(bytes);
    if i < |bytes| && |st.buf| + i <= MAX_LINE_BYTES
       && FinishLine(st.seenFirst, st.buf + bytes[..i]).Ok? {
      PushKeepsPartial(Splitter([], true), bytes[i + 1..]);
    } else if i == |bytes| {
      NewlineNone(bytes);
    }
  }

  lemma {:induction false} NewlineAtAppend(a: seq<byte>, b: seq<byte>)
    ensures NewlineAt(a + b) == if NewlineAt(a) < |a| then NewlineAt(a) else |a| + NewlineAt(b)
  {
    if a == [] {
      assert a + b == b;
    } else if a[0] != NEWLINE {
      assert (a + b)[1..] == a[1..] + b;
      NewlineAtAppend(a[1..], b);
    }
  }

  /** A chunk without a newline only extends the partial line. */
  lemma PushAfterPartial(st: Splitter, a: seq<byte>, b: seq<byte>)
    requires NewlineAt(a) == |a|
    ensures |st.buf| + |a| > MAX_LINE_BYTES ==> Push(st, a + b) == Pushed([], st, Some(TooLong))
    ensures |st.buf| + |a| <= MAX_LINE_BYTES ==>
      var y := Push(st.(buf := st.buf + a), b); var whole := Push(st, a + b);
      whole.lines == y.lines && whole.error == y.error && (y.error.None? ==> whole == y)
  {
    hide FinishLine, NewlineAt;
    NewlineAtAppend(a, b);
    var j := NewlineAt(b);
    if j < |b| {
      assert (st.buf + a) + b[..j] == st.buf + (a + b)[..|a| + j];
      assert (a + b)[|a| + j + 1..] == b[j + 1..];
    } else {
      assert (st.buf + a) + b == st.buf + (a + b);
    }
  }

  /** Framing does not matter: the same lines before the same first error, whatever the chunks. */
  lemma {:induction false} PushSplit(st: Splitter, a: seq<byte>, b: seq<byte>)
    ensures var x := Push(st, a); var whole := Push(st, a + b);
      if x.error.Some? then whole.lines == x.lines && whole.error == x.error
      else
        var y := Push(x.splitter, b);
        && whole.lines == x.lines + y.lines && whole.error == y.error
        && (y.error.None? ==> whole.splitter == y.splitter)
    decreases |a|
  {
    hide FinishLine, NewlineAt;
    var i := NewlineAt(a);
    if i == |a| {
      PushAfterPartial(st, a, b);
    } else {
      NewlineAtAppend(a, b);
      assert (a + b)[..i] == a[..i] && (a + b)[i + 1..] == a[i + 1..] + b;
      PushSplit(Splitter([], true), a[i + 1..], b);
      if |st.buf| + i <= MAX_LINE_BYTES && FinishLine(st.seenFirst, st.buf + a[..i]).Ok? {
        var line := FinishLine(st.seenFirst, st.buf + a[..i]).value;
        var x := Push(Splitter([], true), a[i + 1..]);
        var y := Push(x.splitter, b);
        assert [line] + (x.lines + y.lines) == ([line] + x.lines) + y.lines;
      }
    }
  }

  /** `LineSplitter`. */
  class LineSplitter {
    var buf: seq<byte>
    var seenFirstLine: bool

    function Abstract(): Splitter
      reads this
    {
      Splitter(buf, seenFirstLine)
    }

    constructor ()
      ensures Abstract() == Splitter([], false)
    {
      buf, seenFirstLine := [], false;
    }

    /** `push`. */
    method PushBytes(bytes: seq<byte>) returns (lines: seq<string>, error: Option<LineError>)
      modifies this
      ensures Pushed(lines, Abstract(), error) == Push(old(Abstract()), bytes)
    {
      hide FinishLine;
      lines := [];
      var rest := bytes;
      ghost var whole := Push(Abstract(), bytes);
      while true
        invariant var p := Push(Abstract(), rest); whole == p.(lines := lines + p.lines)
        decreases |rest|
      {
        var i := NewlineAt(rest);
        if i == |rest| {
          if |buf| + |rest| > MAX_LINE_BYTES {
            return lines, Some(TooLong);
          }
          buf := buf + rest;
          return lines, None;
        }
        var line: Result<string, LineError>;
        if |buf| > 0 && |buf| + i > MAX_LINE_BYTES {
          return lines, Some(TooLong);
        }
        var text := buf + rest[..i];
        buf := [];
        line := FinishLine(seenFirstLine, text);
        if line.Err? {
          LongOnlyAlone(seenFirstLine, text);
          return lines, Some(line.error);
        }
        LongOnlyAlone(seenFirstLine, text);
        ghost var later := Push(Splitter([], true), rest[i + 1..]);
        assert lines + ([line.value] + later.lines) == (lines + [line.value]) + later.lines;
        seenFirstLine := true;
        lines := lines + [line.value];
        rest := rest[i + 1..];
      }
    }
  }

  lemma LongOnlyAlone(seenFirst: bool, line: seq<byte>)
    ensures FinishLine(seenFirst, line) == Err(TooLong) <==> |line| > MAX_LINE_BYTES
  {
  }

  // ---- Well-formed lines ----

  /** `bytes` is a line, terminator excluded, that reads as `text`. */
  predicate Spells(bytes: seq<byte>, text: string) {
    && Partial(bytes)
    && FromUtf8(StripCr(bytes)) == Some(text)
    && StripBom(text) == text
  }

  predicate AllSpell(records: seq<seq<byte>>, texts: seq<string>) {
    |records| == |texts| && forall i :: 0 <= i < |records| ==> Spells(records[i], texts[i])
  }

  function Joined(records: seq<seq<byte>>): seq<byte> {
    if records == [] then [] else records[0] + [NEWLINE] + Joined(records[1..])
  }

  lemma {:induction false} JoinedAppend(a: seq<seq<byte>>, b: seq<seq<byte>>)
    ensures Joined(a + b) == Joined(a) + Joined(b)
  {
    if a == [] {
      assert a + b == b;
    } else {
      assert (a + b)[1..] == a[1..] + b;
      JoinedAppend(a[1..], b);
    }
  }

  lemma CutAt(whole: seq<byte>, a: seq<byte>, b: seq<byte>, i: nat)
    requires whole == a + b
    ensures i == |a| < |whole| ==> whole[..i] == a && whole[i + 1..] == b[1..]
    ensures i < |a| ==> whole[..i] == a[..i] && whole[i + 1..] == a[i + 1..] + b
  {
  }

  /** The first newline in a prefix of some lines ends the first of them. */
  lemma NewlineAfter(record: seq<byte>, tail: seq<byte>, whole: seq<byte>, prefix: seq<byte>, rest: seq<byte>)
    requires NEWLINE !in record && tail != [] && tail[0] == NEWLINE
    requires whole == prefix + rest && whole == record + tail
    ensures var i := NewlineAt(prefix);
      if i == |prefix| then |prefix| <= |record|
      else prefix[..i] == record && prefix[i + 1..] + rest == tail[1..]
  {
    assert NewlineAt(tail) == 0;
    hide NewlineAt;
    NoNewlineIn(record);
    NewlineAtAppend(record, tail);
    NewlineAtAppend(prefix, rest);
    CutAt(whole, prefix, rest, NewlineAt(prefix));
    CutAt(whole, record, tail, NewlineAt(prefix));
  }

  lemma JoinedFirst(records: seq<seq<byte>>) returns (tail: seq<byte>)
    requires records != []
    ensures Joined(records) == records[0] + tail && tail != [] && tail[0] == NEWLINE
    ensures tail[1..] == Joined(records[1..])
  {
    tail := [NEWLINE] + Joined(records[1..]);
    assert Joined(records) == records[0] + tail;
  }

  lemma SpelledLine(seenFirst: bool, bytes: seq<byte>, text: string)
    requires Spells(bytes, text)
    ensures FinishLine(seenFirst, bytes) == Ok(text)
    ensures NEWLINE !in bytes && |bytes| <= MAX_LINE_BYTES
  {
  }

  /** Chunks of a stream of well-formed lines complete exactly those lines, in order. */
  lemma {:induction false} PushRecords(st: Splitter, records: seq<seq<byte>>, texts: seq<string>,
                                       chunk: seq<byte>, rest: seq<byte>)
    returns (k: nat)
    requires AllSpell(records, texts)
    requires Partial(st.buf) && st.buf + chunk + rest == Joined(records)
    ensures k <= |records|
    ensures var p := Push(st, chunk);
      && p.error.None? && p.lines == texts[..k]
      && Partial(p.splitter.buf) && p.splitter.buf + rest == Joined(records[k..])
    decreases |chunk|
  {
    hide Joined, FinishLine, NewlineAt, Spells, Push, AllSpell, Partial;
    SameLength(records, texts);
    FirstLineOfChunk(st, records, texts, chunk, rest);
    if NewlineAt(chunk) == |chunk| {
      k := 0;
      assert records[0..] == records;
    } else {
      var i := NewlineAt(chunk);
      FirstSpells(records, texts);
      NothingBefore(chunk[i + 1..]);
      NothingIsPartial();
      k := PushRecords(Splitter([], true), records[1..], texts[1..], chunk[i + 1..], rest);
      PrefixAndRest(texts, k);
      PrefixAndRest(records, k);
      k := k + 1;
    }
  }

  lemma NothingIsPartial()
    ensures Partial([])
  {
  }

  /** Either the chunk only extends the partial line, or it completes the first record. */
  lemma FirstLineOfChunk(st: Splitter, records: seq<seq<byte>>, texts: seq<string>,
                         chunk: seq<byte>, rest: seq<byte>)
    requires AllSpell(records, texts) && |records| == |texts|
    requires Partial(st.buf) && st.buf + chunk + rest == Joined(records)
    ensures var i := NewlineAt(chunk);
      if i == |chunk| then Push(st, chunk) == Pushed([], st.(buf := st.buf + chunk), None) && Partial(st.buf + chunk)
      else
        var later := Push(Splitter([], true), chunk[i + 1..]);
        && records != [] && Push(st, chunk) == later.(lines := [texts[0]] + later.lines)
        && chunk[i + 1..] + rest == Joined(records[1..])
  {
    hide Joined, FinishLine, NewlineAt, Spells, Push, AllSpell;
    PushUnfold(st, chunk);
    if records == [] {
      JoinedNothing();
      assert st.buf == [] && chunk == [];
      NoNewlineIn(chunk);
    } else {
      FirstSpells(records, texts);
      SpelledLine(st.seenFirst, records[0], texts[0]);
      var tail := JoinedFirst(records);
      CutRecord(st.buf, chunk, rest, records[0], tail, st.buf + chunk, Joined(records));
    }
  }

  lemma CutRecord(buf: seq<byte>, chunk: seq<byte>, rest: seq<byte>, record: seq<byte>, tail: seq<byte>,
                  all: seq<byte>, whole: seq<byte>)
    requires NEWLINE !in buf && NEWLINE !in record && tail != [] && tail[0] == NEWLINE
    requires all == buf + chunk && whole == all + rest && whole == record + tail
    ensures var i := NewlineAt(chunk);
      if i == |chunk| then |all| <= |record| && NEWLINE !in all
      else buf + chunk[..i] == record && chunk[i + 1..] + rest == tail[1..]
  {
    hide NewlineAt;
    var i := NewlineAt(chunk);
    assert NewlineAt(all) == |buf| + i by {
      NoNewlineIn(buf);
      NewlineAtAppend(buf, chunk);
    }
    if i == |chunk| {
      CutNowhere(record, tail, whole, all, rest);
    } else {
      CutInside(buf, chunk, rest, record, tail, all, whole, i);
    }
  }

  /** Without a newline so far, the bytes are part of the record. */
  lemma CutNowhere(record: seq<byte>, tail: seq<byte>, whole: seq<byte>, all: seq<byte>, rest: seq<byte>)
    requires NEWLINE !in record && tail != [] && tail[0] == NEWLINE
    requires whole == all + rest && whole == record + tail && NewlineAt(all) == |all|
    ensures |all| <= |record| && NEWLINE !in all
  {
    hide NewlineAt;
    NewlineAfter(record, tail, whole, all, rest);
    NewlineNone(all);
  }

  /** The newline at `i` in the chunk ends the record. */
  lemma CutInside(buf: seq<byte>, chunk: seq<byte>, rest: seq<byte>, record: seq<byte>, tail: seq<byte>,
                  all: seq<byte>, whole: seq<byte>, i: nat)
    requires NEWLINE !in record && tail != [] && tail[0] == NEWLINE
    requires all == buf + chunk && whole == all + rest && whole == record + tail
    requires i < |chunk| && NewlineAt(all) == |buf| + i
    ensures buf + chunk[..i] == record && chunk[i + 1..] + rest == tail[1..]
  {
    hide NewlineAt;
    NewlineAfter(record, tail, whole, all, rest);
    Rebase(buf, chunk, i);
  }

  /** A cut of the partial line and the chunk, seen from the chunk. */
  lemma Rebase(buf: seq<byte>, chunk: seq<byte>, i: nat)
    requires i < |chunk|
    ensures (buf + chunk)[..|buf| + i] == buf + chunk[..i] && (buf + chunk)[|buf| + i + 1..] == chunk[i + 1..]
  {
  }

  lemma PrefixAndRest<T>(s: seq<T>, k: nat)
    requires k < |s|
    ensures s[..k + 1] == [s[0]] + s[1..][..k] && s[1..][k..] == s[k + 1..]
  {
  }

  lemma SameLength(records: seq<seq<byte>>, texts: seq<string>)
    requires AllSpell(records, texts)
    ensures |records| == |texts|
  {
  }

  lemma FirstSpells(records: seq<seq<byte>>, texts: seq<string>)
    requires AllSpell(records, texts) && records != []
    ensures |records| == |texts|
    ensures Spells(records[0], texts[0]) && AllSpell(records[1..], texts[1..])
  {
  }

  lemma JoinedNothing()
    ensures Joined([]) == []
  {
  }

  lemma PushUnfold(st: Splitter, chunk: seq<byte>)
    ensures var i := NewlineAt(chunk);
      if |st.buf| + i > MAX_LINE_BYTES then Push(st, chunk) == Pushed([], st, Some(TooLong))
      else if i == |chunk| then Push(st, chunk) == Pushed([], st.(buf := st.buf + chunk), None)
      else match FinishLine(st.seenFirst, st.buf + chunk[..i])
           case Err(e) => Push(st, chunk).error == Some(e)
           case Ok(line) =>
             var later := Push(Splitter([], true), chunk[i + 1..]);
             Push(st, chunk) == later.(lines := [line] + later.lines)
  {
    hide FinishLine, NewlineAt;
  }

  lemma {:induction false} NoNewlineIn(buf: seq<byte>)
    requires NEWLINE !in buf
    ensures NewlineAt(buf) == |buf|
  {
    if buf != [] {
      NoNewlineIn(buf[1..]);
    }
  }

  lemma NewlineNone(buf: seq<byte>)
    requires NewlineAt(buf) == |buf|
    ensures NEWLINE !in buf
  {
    NewlineAtIsFirst(buf);
    assert buf[..|buf|] == buf;
  }
}
