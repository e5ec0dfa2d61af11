/** Collecting a pipeline's streams out of everything the pool reads. */
module Pipelines {
  import opened Common
  import opened Text
  import opened Values
  import M = Messages

  /** The states a pipeline reports. */
  datatype RunState = NotStarted | Running | Stopping | Stopped | Completed | Failed | Disconnected | Unknown

  function StateOf(code: int): RunState {
    match code
    case 0 => NotStarted
    case 1 => Running
    case 2 => Stopping
    case 3 => Stopped
    case 4 => Completed
    case 5 => Failed
    case 6 => Disconnected
    case _ => Unknown
  }

  predicate IsTerminal(s: RunState) {
    s.Completed? || s.Failed? || s.Stopped? || s.Disconnected?
  }

  datatype Kind = Output | Errors | Warnings | Verbose | Debug | Information | Progress

  datatype Streams = Streams(output: seq<Value>, errors: seq<Value>, warnings: seq<Value>, verbose: seq<Value>,
                             debug: seq<Value>, information: seq<Value>, progress: seq<Value>) {
    function Get(k: Kind): seq<Value> {
      match k
      case Output => output
      case Errors => errors
      case Warnings => warnings
      case Verbose => verbose
      case Debug => debug
      case Information => information
      case Progress => progress
    }

    function Append(k: Kind, vs: seq<Value>): (r: Streams)
      ensures r.Get(k) == Get(k) + vs
    {
      match k
      case Output => this.(output := output + vs)
      case Errors => this.(errors := errors + vs)
      case Warnings => this.(warnings := warnings + vs)
      case Verbose => this.(verbose := verbose + vs)
      case Debug => this.(debug := debug + vs)
      case Information => this.(information := information + vs)
      case Progress => this.(progress := progress + vs)
    }
  }

  lemma AppendOnlyThere(s: Streams, k: Kind, vs: seq<Value>, other: Kind)
    ensures other != k ==> s.Append(k, vs).Get(other) == s.Get(other)
  {
  }

  const NOTHING := Streams([], [], [], [], [], [], [])

  function KindOf(t: M.MessageType): Option<Kind> {
    match t
    case PipelineOutput => Some(Output)
    case ErrorRecord => Some(Errors)
    case WarningRecord => Some(Warnings)
    case VerboseRecord => Some(Verbose)
    case DebugRecord => Some(Debug)
    case InformationRecord => Some(Information)
    case ProgressRecord => Some(Progress)
    case _ => None
  }

  datatype PipelineError =
    | EmptyPipeline
    | Cancelled
    | StoppedByServer
    | PipelineFailed(data: string, errors: seq<Value>)
    | BadClixml
    | MissingState
    | SignalFailed
    | SendRefused
    | ReadError

  /** What the next turn of the loop meets. A `Cancel` carries whether the transport takes the stop signal. */
  datatype Event = Cancel(accepted: bool) | Arrived(m: M.Message) | ReadFailed(stopped: bool)

  datatype Outcome = Waiting | Done(streams: Streams, state: RunState) | Error(e: PipelineError)

  /** What the loop carries: the result so far, and whether it has sent its stop signal. */
  datatype Run = Run(streams: Streams, state: RunState, signalled: bool)

  datatype Turn = More(run: Run) | End(outcome: Outcome)

  /** `extract_pipeline_state`: the first object with a 32-bit `PipelineState`. */
  function FirstState(vs: seq<Value>): Option<RunState> {
    if vs == [] then None
    else if vs[0].Object? then
      match Find(vs[0].props, "PipelineState")
      case Some(Int(I32, code)) => Some(StateOf(code))
      case _ => FirstState(vs[1..])
    else FirstState(vs[1..])
  }

  predicate IsOwn(m: M.Message, pid: Guid, rpid: Guid) {
    m.pid == pid && m.rpid == rpid
  }

  /** One message, taken by a run of the given pipeline. */
  function Take(parse: Clixml, pid: Guid, rpid: Guid, m: M.Message, run: Run): Turn {
    if !IsOwn(m, pid, rpid) then More(run)
    else if KindOf(m.messageType).Some? then
      match parse(m.data)
      case None => End(Error(BadClixml))
      case Some(vs) => More(run.(streams := run.streams.Append(KindOf(m.messageType).value, vs)))
    else if m.messageType.PipelineState? then
      match parse(m.data)
      case None => End(Error(BadClixml))
      case Some(vs) =>
        match FirstState(vs)
        case None => End(Error(MissingState))
        case Some(state) =>
          if state.Failed? then End(Error(PipelineFailed(m.data, run.streams.errors)))
          else if state.Stopped? then End(Error(if run.signalled then Cancelled else StoppedByServer))
          else if IsTerminal(state) then End(Done(run.streams, state))
          else More(run.(state := state))
    else More(run)
  }

  /** The whole loop: the outcome, and the stop signals the transport took. */
  function Drive(parse: Clixml, pid: Guid, rpid: Guid, events: seq<Event>, run: Run): (Outcome, nat)
    decreases |events|
  {
    if events == [] then (Waiting, 0)
    else
      match events[0]
      case Cancel(accepted) =>
        if run.signalled then Drive(parse, pid, rpid, events[1..], run)
        else if !accepted then (Error(SignalFailed), 0)
        else
          var r := Drive(parse, pid, rpid, events[1..], run.(signalled := true));
          (r.0, r.1 + 1)
      case ReadFailed(stopped) =>
        (Error(if !stopped then ReadError else if run.signalled then Cancelled else StoppedByServer), 0)
      case Arrived(m) =>
        match Take(parse, pid, rpid, m, run)
        case More(next) => Drive(parse, pid, rpid, events[1..], next)
        case End(outcome) => (outcome, 0)
  }

  const START := Run(NOTHING, Running, false)

  // ---- Only the pipeline's own messages count ----

  /** The events without the messages of other pipelines and pools. */
  function Own(events: seq<Event>, pid: Guid, rpid: Guid): seq<Event> {
    if events == [] then []
    else if events[0].Arrived? && !IsOwn(events[0].m, pid, rpid) then Own(events[1..], pid, rpid)
    else [events[0]] + Own(events[1..], pid, rpid)
  }

  /**
   * Of the messages the pool hands on, those of another pipeline may all be deleted: neither the outcome nor the
   * signals change. A message the pool itself fails on is no such message, but a failed read.
   */
  lemma {:induction false} ForeignMessagesAreIgnored(parse: Clixml, pid: Guid, rpid: Guid, events: seq<Event>, run: Run)
    ensures Drive(parse, pid, rpid, Own(events, pid, rpid), run) == Drive(parse, pid, rpid, events, run)
    decreases |events|
  {
    if events != [] {
      var own := Own(events, pid, rpid);
      if events[0].Arrived? && !IsOwn(events[0].m, pid, rpid) {
        ForeignMessagesAreIgnored(parse, pid, rpid, events[1..], run);
      } else {
        assert own[0] == events[0] && own[1..] == Own(events[1..], pid, rpid);
        match events[0]
        case Cancel(_) =>
          ForeignMessagesAreIgnored(parse, pid, rpid, events[1..], run.(signalled := true));
        case ReadFailed(_) =>
        case Arrived(m) =>
          var turn := Take(parse, pid, rpid, m, run);
          if turn.More? { ForeignMessagesAreIgnored(parse, pid, rpid, events[1..], turn.run); }
      }
    }
  }

  lemma TakeKeepsSignalled(parse: Clixml, pid: Guid, rpid: Guid, m: M.Message, run: Run)
    ensures var t := Take(parse, pid, rpid, m, run);
      && (t.More? ==> t.run.signalled == run.signalled)
      && (t.End? && t.outcome == Error(Cancelled) ==> run.signalled)
      && (t.End? ==> !t.outcome.Waiting?)
  {
    hide FirstState, KindOf;
  }

  /** At most one stop signal, none once it was sent; `Cancelled` only after one was taken. */
  lemma {:induction false} OneStopSignal(parse: Clixml, pid: Guid, rpid: Guid, events: seq<Event>, run: Run)
    ensures var r := Drive(parse, pid, rpid, events, run);
      && r.1 <= (if run.signalled then 0 else 1)
      && (r.0 == Error(Cancelled) ==> run.signalled || r.1 == 1)
    decreases |events|
  {
    hide Take;
    if events != [] {
      match events[0]
      case Cancel(_) => OneStopSignal(parse, pid, rpid, events[1..], run.(signalled := true));
      case ReadFailed(_) =>
      case Arrived(m) =>
        TakeKeepsSignalled(parse, pid, rpid, m, run);
        var turn := Take(parse, pid, rpid, m, run);
        if turn.More? { OneStopSignal(parse, pid, rpid, events[1..], turn.run); }
    }
  }

  // ---- What a finished pipeline returns ----

  /** The values one stream gets from its messages, in their order. */
  function Gathered(parse: Clixml, pid: Guid, rpid: Guid, events: seq<Event>, k: Kind): seq<Value> {
    if events == [] then []
    else
      (if events[0].Arrived? && IsOwn(events[0].m, pid, rpid) && KindOf(events[0].m.messageType) == Some(k)
          && parse(events[0].m.data).Some?
       then parse(events[0].m.data).value else [])
      + Gathered(parse, pid, rpid, events[1..], k)
  }

  /** The state an own message reports, if it is a readable state message. */
  function Reported(parse: Clixml, pid: Guid, rpid: Guid, e: Event): Option<RunState> {
    if e.Arrived? && IsOwn(e.m, pid, rpid) && e.m.messageType.PipelineState? && parse(e.m.data).Some?
    then FirstState(parse(e.m.data).value) else None
  }

  lemma GatheredOne(parse: Clixml, pid: Guid, rpid: Guid, m: M.Message, k: Kind)
    ensures Gathered(parse, pid, rpid, [Arrived(m)], k)
         == if IsOwn(m, pid, rpid) && KindOf(m.messageType) == Some(k) && parse(m.data).Some? then parse(m.data).value else []
  {
    hide KindOf;
    assert [Arrived(m)][1..] == [];
  }

  lemma KindIsNotState(t: M.MessageType)
    ensures t.PipelineState? ==> KindOf(t).None?
  {
  }

  lemma TakeGathers(parse: Clixml, pid: Guid, rpid: Guid, m: M.Message, run: Run, k: Kind)
    ensures var t := Take(parse, pid, rpid, m, run);
      && (t.More? ==> t.run.streams.Get(k) == run.streams.Get(k) + Gathered(parse, pid, rpid, [Arrived(m)], k)
                      && (Reported(parse, pid, rpid, Arrived(m)).None?
                          || !IsTerminal(Reported(parse, pid, rpid, Arrived(m)).value)))
      && (t.End? && t.outcome.Done? ==>
            t.outcome.streams == run.streams && Reported(parse, pid, rpid, Arrived(m)) == Some(t.outcome.state)
            && IsTerminal(t.outcome.state))
  {
    hide FirstState, KindOf, Gathered;
    GatheredOne(parse, pid, rpid, m, k);
    KindIsNotState(m.messageType);
    assert run.streams.Get(k) + [] == run.streams.Get(k);
    if KindOf(m.messageType).Some? && parse(m.data).Some? {
      AppendOnlyThere(run.streams, KindOf(m.messageType).value, parse(m.data).value, k);
    }
  }

  lemma {:induction false} GatheredStep(parse: Clixml, pid: Guid, rpid: Guid, events: seq<Event>, k: Kind)
    requires events != []
    ensures Gathered(parse, pid, rpid, events, k)
         == Gathered(parse, pid, rpid, [events[0]], k) + Gathered(parse, pid, rpid, events[1..], k)
  {
    hide KindOf;
    assert [events[0]][1..] == [];
  }

  /** Stream `k` of a finished run: everything its messages carried before the first terminal state. */
  predicate Collected(parse: Clixml, pid: Guid, rpid: Guid, events: seq<Event>, run: Run, o: Outcome, n: nat, k: Kind) {
    && o.Done? && n < |events|
    && o.streams.Get(k) == run.streams.Get(k) + Gathered(parse, pid, rpid, events[..n], k)
    && Reported(parse, pid, rpid, events[n]) == Some(o.state) && IsTerminal(o.state)
    && forall i :: 0 <= i < n ==>
         Reported(parse, pid, rpid, events[i]).None? || !IsTerminal(Reported(parse, pid, rpid, events[i]).value)
  }

  lemma {:induction false} DoneIsOrderedConcatenation(parse: Clixml, pid: Guid, rpid: Guid, events: seq<Event>, run: Run,
                                                      k: Kind)
    returns (n: nat)
    requires Drive(parse, pid, rpid, events, run).0.Done?
    ensures Collected(parse, pid, rpid, events, run, Drive(parse, pid, rpid, events, run).0, n, k)
    decreases |events|
  {
    hide Take, Reported, Gathered;
    var o := Drive(parse, pid, rpid, events, run).0;
    match events[0]
    case Cancel(_) =>
      var next := if run.signalled then run else run.(signalled := true);
      var j := DoneIsOrderedConcatenation(parse, pid, rpid, events[1..], next, k);
      n := j + 1;
      NotAMessage(parse, pid, rpid, events[0], k);
      Shift(parse, pid, rpid, events, next, o, j, k);
    case Arrived(m) =>
      TakeGathers(parse, pid, rpid, m, run, k);
      var turn := Take(parse, pid, rpid, m, run);
      if turn.End? {
        n := 0;
        assert events[..0] == [];
        assert Gathered(parse, pid, rpid, [], k) == [] by { GatheredNothing(parse, pid, rpid, k); }
        assert run.streams.Get(k) + [] == run.streams.Get(k);
      } else {
        var j := DoneIsOrderedConcatenation(parse, pid, rpid, events[1..], turn.run, k);
        n := j + 1;
        Shift(parse, pid, rpid, events, turn.run, o, j, k);
        Regroup(run.streams.Get(k), Gathered(parse, pid, rpid, [events[0]], k),
                Gathered(parse, pid, rpid, events[1..][..j], k));
      }
  }

  lemma NotAMessage(parse: Clixml, pid: Guid, rpid: Guid, e: Event, k: Kind)
    requires !e.Arrived?
    ensures Gathered(parse, pid, rpid, [e], k) == [] && Reported(parse, pid, rpid, e) == None
  {
    assert [e][1..] == [];
  }

  lemma GatheredNothing(parse: Clixml, pid: Guid, rpid: Guid, k: Kind)
    ensures Gathered(parse, pid, rpid, [], k) == []
  {
  }

  /** A collected tail, one event later. */
  lemma Shift(parse: Clixml, pid: Guid, rpid: Guid, events: seq<Event>, next: Run, o: Outcome, j: nat, k: Kind)
    requires events != [] && Collected(parse, pid, rpid, events[1..], next, o, j, k)
    ensures j + 1 < |events| && Reported(parse, pid, rpid, events[j + 1]) == Some(o.state) && IsTerminal(o.state)
    ensures Gathered(parse, pid, rpid, events[..j + 1], k)
         == Gathered(parse, pid, rpid, [events[0]], k) + Gathered(parse, pid, rpid, events[1..][..j], k)
    ensures o.streams.Get(k) == next.streams.Get(k) + Gathered(parse, pid, rpid, events[1..][..j], k)
    ensures forall i :: 0 < i < j + 1 ==>
      Reported(parse, pid, rpid, events[i]).None? || !IsTerminal(Reported(parse, pid, rpid, events[i]).value)
  {
    hide Reported, Gathered, IsTerminal;
    GatheredStep(parse, pid, rpid, events[..j + 1], k);
    assert events[..j + 1][1..] == events[1..][..j];
    forall i | 0 < i < j + 1
      ensures Reported(parse, pid, rpid, events[i]).None? || !IsTerminal(Reported(parse, pid, rpid, events[i]).value)
    {
      assert events[i] == events[1..][i - 1];
    }
  }

  // ---- The same, by the names and codes on the wire ----

  /** What the own messages of one type carried, in their order. */
  function CarriedBy(parse: Clixml, pid: Guid, rpid: Guid, events: seq<Event>, t: M.MessageType): seq<Value> {
    if events == [] then []
    else
      var e := events[|events| - 1];
      CarriedBy(parse, pid, rpid, events[..|events| - 1], t)
      + if e.Arrived? && e.m.pid == pid && e.m.rpid == rpid && e.m.messageType == t && parse(e.m.data).Some?
        then parse(e.m.data).value else []
  }

  lemma CarriedSnoc(parse: Clixml, pid: Guid, rpid: Guid, events: seq<Event>, e: Event, t: M.MessageType)
    ensures CarriedBy(parse, pid, rpid, events + [e], t)
         == CarriedBy(parse, pid, rpid, events, t) + CarriedBy(parse, pid, rpid, [e], t)
  {
    assert (events + [e])[..|events|] == events && [e][..0] == [];
  }

  /** Each of the seven streams holds what the messages of its own type carried. */
  predicate Sorted(s: Streams, parse: Clixml, pid: Guid, rpid: Guid, events: seq<Event>) {
    && s.output == CarriedBy(parse, pid, rpid, events, M.PipelineOutput)
    && s.errors == CarriedBy(parse, pid, rpid, events, M.ErrorRecord)
    && s.warnings == CarriedBy(parse, pid, rpid, events, M.WarningRecord)
    && s.verbose == CarriedBy(parse, pid, rpid, events, M.VerboseRecord)
    && s.debug == CarriedBy(parse, pid, rpid, events, M.DebugRecord)
    && s.information == CarriedBy(parse, pid, rpid, events, M.InformationRecord)
    && s.progress == CarriedBy(parse, pid, rpid, events, M.ProgressRecord)
  }

  /** The code of the first object that has one: a 32-bit integer under the name `PipelineState`. */
  function CodeIn(vs: seq<Value>): Option<int> {
    if vs == [] then None
    else if vs[0].Object? && Find(vs[0].props, "PipelineState").Some?
            && Find(vs[0].props, "PipelineState").value.Int? && Find(vs[0].props, "PipelineState").value.kind.I32?
      then Some(Find(vs[0].props, "PipelineState").value.i)
    else CodeIn(vs[1..])
  }

  /** The code an event reports: that of a readable state message of this pipeline. */
  function CodeOf(parse: Clixml, pid: Guid, rpid: Guid, e: Event): Option<int> {
    if e.Arrived? && e.m.pid == pid && e.m.rpid == rpid && e.m.messageType.PipelineState? && parse(e.m.data).Some?
    then CodeIn(parse(e.m.data).value) else None
  }

  /** Stopped, completed, failed, disconnected. */
  predicate EndsARun(code: Option<int>) {
    code == Some(3) || code == Some(4) || code == Some(5) || code == Some(6)
  }

  /** Whether a stop signal went out, at the latest with these events. */
  predicate Signalled(events: seq<Event>) {
    exists i :: 0 <= i < |events| && events[i] == Cancel(true)
  }

  /** An own message whose body cannot be decoded, though its type asks for it. */
  predicate Unreadable(parse: Clixml, pid: Guid, rpid: Guid, e: Event) {
    && e.Arrived? && e.m.pid == pid && e.m.rpid == rpid && parse(e.m.data).None?
    && (var t := e.m.messageType;
        t.PipelineOutput? || t.ErrorRecord? || t.WarningRecord? || t.VerboseRecord? || t.DebugRecord?
        || t.InformationRecord? || t.ProgressRecord? || t.PipelineState?)
  }

  /** The outcome that event `e` gives a run, after `before`. */
  predicate EndedBy(parse: Clixml, pid: Guid, rpid: Guid, before: seq<Event>, e: Event, o: Outcome) {
    var code := CodeOf(parse, pid, rpid, e);
    match o
    case Waiting => false
    case Done(streams, state) =>
      Sorted(streams, parse, pid, rpid, before)
      && ((code == Some(4) && state.Completed?) || (code == Some(6) && state.Disconnected?))
    case Error(PipelineFailed(data, errors)) =>
      code == Some(5) && data == e.m.data && errors == CarriedBy(parse, pid, rpid, before, M.ErrorRecord)
    case Error(StoppedByServer) => (code == Some(3) || e == ReadFailed(true)) && !Signalled(before)
    case Error(Cancelled) => (code == Some(3) || e == ReadFailed(true)) && Signalled(before)
    case Error(ReadError) => e == ReadFailed(false)
    case Error(SignalFailed) => e == Cancel(false) && !Signalled(before)
    case Error(BadClixml) => Unreadable(parse, pid, rpid, e)
    case Error(MissingState) =>
      e.Arrived? && e.m.pid == pid && e.m.rpid == rpid && e.m.messageType.PipelineState? && parse(e.m.data).Some?
      && code.None?
    case Error(_) => false
  }

  /** What the loop carries after these events. */
  predicate Reached(parse: Clixml, pid: Guid, rpid: Guid, before: seq<Event>, run: Run) {
    && Sorted(run.streams, parse, pid, rpid, before) && run.signalled == Signalled(before)
    && forall i :: 0 <= i < |before| ==> !EndsARun(CodeOf(parse, pid, rpid, before[i]))
  }

  lemma {:induction false} StateOfCode(vs: seq<Value>)
    ensures FirstState(vs).Some? <==> CodeIn(vs).Some?
    ensures FirstState(vs).Some? ==>
      var s, code := FirstState(vs).value, CodeIn(vs);
      && (s.Stopped? <==> code == Some(3)) && (s.Completed? <==> code == Some(4))
      && (s.Failed? <==> code == Some(5)) && (s.Disconnected? <==> code == Some(6))
  {
    hide Find;
    if vs != [] {
      StateOfCode(vs[1..]);
    }
  }

  lemma CarriedOne(parse: Clixml, pid: Guid, rpid: Guid, e: Event, t: M.MessageType)
    ensures CarriedBy(parse, pid, rpid, [e], t)
         == if e.Arrived? && e.m.pid == pid && e.m.rpid == rpid && e.m.messageType == t && parse(e.m.data).Some?
            then parse(e.m.data).value else []
  {
    assert [e][..0] == [];
  }

  /** An event that adds nothing to any stream. */
  lemma SortedOn(s: Streams, parse: Clixml, pid: Guid, rpid: Guid, before: seq<Event>, e: Event)
    requires Sorted(s, parse, pid, rpid, before)
    requires !e.Arrived? || e.m.pid != pid || e.m.rpid != rpid || KindOf(e.m.messageType).None?
    ensures Sorted(s, parse, pid, rpid, before + [e])
  {
    hide CarriedBy;
    SortedSnoc(parse, pid, rpid, before, e);
  }

  lemma SortedSnoc(parse: Clixml, pid: Guid, rpid: Guid, before: seq<Event>, e: Event)
    ensures forall t: M.MessageType ::
      CarriedBy(parse, pid, rpid, before + [e], t)
        == CarriedBy(parse, pid, rpid, before, t)
           + if e.Arrived? && e.m.pid == pid && e.m.rpid == rpid && e.m.messageType == t && parse(e.m.data).Some?
             then parse(e.m.data).value else []
  {
    hide CarriedBy;
    forall t: M.MessageType
      ensures CarriedBy(parse, pid, rpid, before + [e], t)
           == CarriedBy(parse, pid, rpid, before, t) + CarriedBy(parse, pid, rpid, [e], t)
      ensures CarriedBy(parse, pid, rpid, [e], t)
           == if e.Arrived? && e.m.pid == pid && e.m.rpid == rpid && e.m.messageType == t && parse(e.m.data).Some?
              then parse(e.m.data).value else []
    {
      CarriedSnoc(parse, pid, rpid, before, e, t);
      CarriedOne(parse, pid, rpid, e, t);
    }
  }

  /** A message of a stream adds its values to that stream and to no other. */
  lemma SortedMore(s: Streams, parse: Clixml, pid: Guid, rpid: Guid, before: seq<Event>, m: M.Message)
    requires Sorted(s, parse, pid, rpid, before) && IsOwn(m, pid, rpid)
    requires KindOf(m.messageType).Some? && parse(m.data).Some?
    ensures Sorted(s.Append(KindOf(m.messageType).value, parse(m.data).value), parse, pid, rpid, before + [Arrived(m)])
  {
    hide CarriedBy;
    SortedSnoc(parse, pid, rpid, before, Arrived(m));
  }

  lemma ReachedOn(parse: Clixml, pid: Guid, rpid: Guid, before: seq<Event>, e: Event, run: Run, next: Run)
    requires Reached(parse, pid, rpid, before, run) && !EndsARun(CodeOf(parse, pid, rpid, e))
    requires Sorted(next.streams, parse, pid, rpid, before + [e])
    requires next.signalled == (run.signalled || e == Cancel(true))
    ensures Reached(parse, pid, rpid, before + [e], next)
  {
    hide Sorted, CodeOf, EndsARun;
    var after := before + [e];
    assert after[|before|] == e && forall i :: 0 <= i < |before| ==> after[i] == before[i];
  }

  lemma TakeEndsOrReaches(parse: Clixml, pid: Guid, rpid: Guid, before: seq<Event>, m: M.Message, run: Run)
    requires Reached(parse, pid, rpid, before, run)
    ensures var t := Take(parse, pid, rpid, m, run);
      if t.More? then Reached(parse, pid, rpid, before + [Arrived(m)], t.run)
      else EndedBy(parse, pid, rpid, before, Arrived(m), t.outcome)
  {
    hide CarriedBy, FirstState, CodeIn, Sorted, Signalled;
    var e := Arrived(m);
    var t := Take(parse, pid, rpid, m, run);
    if IsOwn(m, pid, rpid) && parse(m.data).Some? {
      StateOfCode(parse(m.data).value);
      if KindOf(m.messageType).Some? {
        SortedMore(run.streams, parse, pid, rpid, before, m);
      } else {
        SortedOn(run.streams, parse, pid, rpid, before, e);
      }
    } else if !IsOwn(m, pid, rpid) || KindOf(m.messageType).None? {
      SortedOn(run.streams, parse, pid, rpid, before, e);
    }
    if t.More? {
      ReachedOn(parse, pid, rpid, before, e, run, t.run);
    } else if t.outcome == Error(PipelineFailed(m.data, run.streams.errors)) {
      SortedErrors(run.streams, parse, pid, rpid, before);
    }
  }

  lemma SortedErrors(s: Streams, parse: Clixml, pid: Guid, rpid: Guid, before: seq<Event>)
    requires Sorted(s, parse, pid, rpid, before)
    ensures s.errors == CarriedBy(parse, pid, rpid, before, M.ErrorRecord)
  {
    hide CarriedBy;
  }

  /**
   * How a run ends, in the terms of the wire: at the first event that ends it, with every stream holding what the
   * messages of its own type carried before, and with the outcome that its code, or what went wrong, stands for.
   */
  lemma {:induction false} HowRunsEnd(parse: Clixml, pid: Guid, rpid: Guid, events: seq<Event>, k: nat, run: Run)
    returns (n: nat)
    requires k <= |events| && Reached(parse, pid, rpid, events[..k], run)
    ensures k <= n <= |events|
    ensures forall i :: 0 <= i < n ==> !EndsARun(CodeOf(parse, pid, rpid, events[i]))
    ensures var o := Drive(parse, pid, rpid, events[k..], run).0;
      if n == |events| then o.Waiting? else EndedBy(parse, pid, rpid, events[..n], events[n], o)
    decreases |events| - k
  {
    hide Sorted, CodeOf, EndsARun, Take, Signalled;
    if k == |events| {
      n := k;
      assert forall i :: 0 <= i < k ==> events[..k][i] == events[i];
      return;
    }
    var e := events[k];
    assert events[k..][0] == e && events[k..][1..] == events[k + 1..] && events[..k] + [e] == events[..k + 1];
    n := k;
    assert forall i :: 0 <= i < k ==> events[..k][i] == events[i];
    match e
    case Cancel(accepted) =>
      if run.signalled || accepted {
        SortedOn(run.streams, parse, pid, rpid, events[..k], e);
        NoCode(parse, pid, rpid, e);
        var next := run.(signalled := true);
        ReachedOn(parse, pid, rpid, events[..k], e, run, next);
        n := HowRunsEnd(parse, pid, rpid, events, k + 1, next);
      }
    case ReadFailed(_) =>
    case Arrived(m) =>
      TakeEndsOrReaches(parse, pid, rpid, events[..k], m, run);
      var t := Take(parse, pid, rpid, m, run);
      if t.More? {
        n := HowRunsEnd(parse, pid, rpid, events, k + 1, t.run);
      }
  }

  lemma NoCode(parse: Clixml, pid: Guid, rpid: Guid, e: Event)
    requires !e.Arrived?
    ensures !EndsARun(CodeOf(parse, pid, rpid, e))
  {
  }

  /** A whole run. */
  lemma RunsEndAsReported(parse: Clixml, pid: Guid, rpid: Guid, events: seq<Event>) returns (n: nat)
    ensures n <= |events|
    ensures forall i :: 0 <= i < n ==> !EndsARun(CodeOf(parse, pid, rpid, events[i]))
    ensures var o := Drive(parse, pid, rpid, events, START).0;
      if n == |events| then o.Waiting? else EndedBy(parse, pid, rpid, events[..n], events[n], o)
  {
    hide EndedBy;
    assert events[0..] == events && events[..0] == [];
    n := HowRunsEnd(parse, pid, rpid, events, 0, START);
  }

  // ---- The two receive loops ----

  /** The pool as the loops see it: what is still to come, and what they did to it. */
  class Port {
    var events: seq<Event>
    var signals: nat
    var sent: seq<M.MessageType>

    constructor (script: seq<Event>)
      ensures events == script && signals == 0 && sent == []
    {
      events, signals, sent := script, 0, [];
    }

    /** `cancel.is_cancelled()`, then `signal_transport_stop`. */
    method SignalStop() returns (accepted: bool)
      requires events != [] && events[0].Cancel?
      modifies `events, `signals
      ensures events == old(events)[1..] && accepted == old(events)[0].accepted
      ensures signals == old(signals) + if accepted then 1 else 0
    {
      accepted := events[0].accepted;
      events := events[1..];
      if accepted {
        signals := signals + 1;
      }
    }

    method Next() returns (e: Event)
      requires events != []
      modifies `events
      ensures e == old(events)[0] && events == old(events)[1..]
    {
      e := events[0];
      events := events[1..];
    }

    /** The transport may refuse a message. */
    method Send(t: M.MessageType) returns (accepted: bool)
      modifies `sent
      ensures sent == if accepted then old(sent) + [t] else old(sent)
    {
      accepted := *;
      if accepted {
        sent := sent + [t];
      }
    }
  }

  /** `run_all_streams_with_cancel`, once the pipeline has at least one command. */
  method RunAllStreams(port: Port, parse: Clixml, commands: nat, pid: Guid, rpid: Guid) returns (r: Outcome)
    modifies port
    ensures commands == 0 ==> r == Error(EmptyPipeline) && port.sent == old(port.sent) && port.signals == old(port.signals)
    ensures commands > 0 ==>
      if port.sent == old(port.sent) then
        r == Error(SendRefused) && port.signals == old(port.signals) && port.events == old(port.events)
      else
        var spec := Drive(parse, pid, rpid, old(port.events), START);
        r == spec.0 && port.signals == old(port.signals) + spec.1 && port.sent == old(port.sent) + [M.CreatePipeline]
  {
    hide FirstState, KindOf;
    if commands == 0 {
      return Error(EmptyPipeline);
    }
    ghost var spec := Drive(parse, pid, rpid, port.events, START);
    var created := port.Send(M.CreatePipeline);
    if !created {
      return Error(SendRefused);
    }
    var streams, state, signalled := NOTHING, Running, false;
    while port.events != []
      invariant port.sent == old(port.sent) + [M.CreatePipeline]
      invariant spec.0 == Drive(parse, pid, rpid, port.events, Run(streams, state, signalled)).0
      invariant old(port.signals) + spec.1
             == port.signals + Drive(parse, pid, rpid, port.events, Run(streams, state, signalled)).1
      decreases |port.events|
    {
      if port.events[0].Cancel? && !signalled {
        var accepted := port.SignalStop();
        if !accepted {
          return Error(SignalFailed);
        }
        signalled := true;
        continue;
      }
      var e := port.Next();
      if e.ReadFailed? {
        return Error(if !e.stopped then ReadError else if signalled then Cancelled else StoppedByServer);
      }
      if e.Cancel? || e.m.pid != pid || e.m.rpid != rpid {
        continue;
      }
      var kind := KindOf(e.m.messageType);
      if kind.Some? {
        var values := parse(e.m.data);
        if values.None? {
          return Error(BadClixml);
        }
        streams := streams.Append(kind.value, values.value);
      } else if e.m.messageType.PipelineState? {
        var values := parse(e.m.data);
        if values.None? {
          return Error(BadClixml);
        }
        var reported := FirstState(values.value);
        if reported.None? {
          return Error(MissingState);
        }
        state := reported.value;
        if state.Failed? {
          return Error(PipelineFailed(e.m.data, streams.errors));
        }
        if state.Stopped? {
          return Error(if signalled then Cancelled else StoppedByServer);
        }
        if IsTerminal(state) {
          return Done(streams, state);
        }
      }
    }
    return Waiting;
  }

  /** A started pipeline that still accepts input. */
  class PipelineHandle {
    const port: Port
    const pid: Guid
    const rpid: Guid
    var inputClosed: bool

    constructor (port: Port, pid: Guid, rpid: Guid, noInput: bool)
      ensures this.port == port && this.pid == pid && this.rpid == rpid && inputClosed == noInput
    {
      this.port, this.pid, this.rpid, inputClosed := port, pid, rpid, noInput;
    }

    /** `end_input`: the end of input is sent once, and counts as sent even if the transport refused it. */
    method EndInput() returns (accepted: bool)
      modifies this, port
      ensures inputClosed && port.events == old(port.events) && port.signals == old(port.signals)
      ensures old(inputClosed) ==> accepted && port.sent == old(port.sent)
      ensures !old(inputClosed) ==>
        port.sent == if accepted then old(port.sent) + [M.EndOfPipelineInput] else old(port.sent)
    {
      if inputClosed {
        return true;
      }
      inputClosed := true;
      accepted := port.Send(M.EndOfPipelineInput);
    }

    /** `drain_loop`: the same fold over what arrives. */
    method DrainLoop(parse: Clixml) returns (r: Outcome)
      modifies port
      ensures port.sent == old(port.sent)
      ensures var spec := Drive(parse, pid, rpid, old(port.events), START);
        r == spec.0 && port.signals == old(port.signals) + spec.1
    {
      hide FirstState, KindOf;
      ghost var spec := Drive(parse, pid, rpid, port.events, START);
      var run := START;
      while port.events != []
        invariant port.sent == old(port.sent)
        invariant spec.0 == Drive(parse, pid, rpid, port.events, run).0
        invariant old(port.signals) + spec.1 == port.signals + Drive(parse, pid, rpid, port.events, run).1
        decreases |port.events|
      {
        if port.events[0].Cancel? && !run.signalled {
          var accepted := port.SignalStop();
          if !accepted {
            return Error(SignalFailed);
          }
          run := run.(signalled := true);
          continue;
        }
        var e := port.Next();
        if e.ReadFailed? {
          return Error(if !e.stopped then ReadError else if run.signalled then Cancelled else StoppedByServer);
        }
        if e.Cancel? || e.m.pid != pid || e.m.rpid != rpid {
          continue;
        }
        var kind := KindOf(e.m.messageType);
        if kind.None? && !e.m.messageType.PipelineState? {
          continue;
        }
        var values := parse(e.m.data);
        if values.None? {
          return Error(BadClixml);
        }
        if kind.Some? {
          run := run.(streams := run.streams.Append(kind.value, values.value));
          continue;
        }
        var reported := FirstState(values.value);
        if reported.None? {
          return Error(MissingState);
        }
        run := run.(state := reported.value);
        if run.state.Failed? {
          return Error(PipelineFailed(e.m.data, run.streams.errors));
        }
        if run.state.Stopped? {
          return Error(if run.signalled then Cancelled else StoppedByServer);
        }
        if IsTerminal(run.state) {
          return Done(run.streams, run.state);
        }
      }
      return Waiting;
    }

    /** `collect_with_cancel`: a handle collects what the one-shot run would have, from the same events. */
    method Collect(parse: Clixml) returns (r: Outcome)
      modifies this, port
      ensures inputClosed
      ensures if !old(inputClosed) && port.sent == old(port.sent) then
          r == Error(SendRefused) && port.signals == old(port.signals) && port.events == old(port.events)
        else
          var spec := Drive(parse, pid, rpid, old(port.events), START);
          r == spec.0 && port.signals == old(port.signals) + spec.1
      ensures port.sent == old(port.sent) || (!old(inputClosed) && port.sent == old(port.sent) + [M.EndOfPipelineInput])
    {
      hide Drive;
      var accepted := EndInput();
      if !accepted {
        return Error(SendRefused);
      }
      r := DrainLoop(parse);
    }
  }
}
