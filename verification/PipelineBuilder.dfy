/** `build_create_pipeline_xml`, appending to a writer as the source does. */
module PipelineBuilder {
  import opened Common
  import opened Text
  import opened Escapes
  import opened Xml
  import opened Values
  import opened Encoder
  import opened CreatePipeline

  /** Returns the id of the type names, for the enumerations after it. */
  method WriteEnumFirst(w: Writer, m: Merge) returns (tn: nat)
    modifies w
    ensures w.out == old(w.out) + EnumFirst(m, old(w.next)).toks && w.next == EnumFirst(m, old(w.next)).next
    ensures tn == NextId(old(w.next))
  {
    hide OpenObj, TypeNameBlock, DisplayBlock, Simple, EnumNames, NextId;
    ghost var start := w.next;
    w.Open(Some(m.name));
    tn := w.next;
    EnumNamesAreSome();
    w.TypeNames(EnumNames(RESULT_TYPES));
    w.Display(Some(m.shown));
    w.Push(Number(m.i));
    w.Push([End("Obj")]);
    FivePieces(old(w.out), [OpenObj(Some(m.name), start)], TypeNameBlock(EnumNames(RESULT_TYPES), tn),
               DisplayBlock(Some(m.shown)), Number(m.i), [End("Obj")]);
  }

  lemma EnumNamesAreSome()
    ensures EnumNames(RESULT_TYPES) != []
  {
  }

  lemma FivePieces<T>(out: seq<T>, a: seq<T>, b: seq<T>, c: seq<T>, d: seq<T>, e: seq<T>)
    ensures ((((out + a) + b) + c) + d) + e == out + (a + (b + (c + (d + e))))
  {
  }

  method WriteEnumRef(w: Writer, m: Merge, tn: nat)
    modifies w
    ensures w.out == old(w.out) + EnumRef(m, tn, old(w.next)).toks && w.next == EnumRef(m, tn, old(w.next)).next
  {
    hide OpenObj, DisplayBlock, Simple, IdAttr, NextId;
    ghost var start := w.next;
    w.Open(Some(m.name));
    w.Push([Empty("TNRef", [IdAttr(tn)])]);
    w.Display(Some(m.shown));
    w.Push(Number(m.i));
    w.Push([End("Obj")]);
    FivePieces(old(w.out), [OpenObj(Some(m.name), start)], [Empty("TNRef", [IdAttr(tn)])],
               DisplayBlock(Some(m.shown)), Number(m.i), [End("Obj")]);
  }

  lemma RefsStep(ms: seq<Merge>, i: nat, tn: nat, next: nat)
    requires i < |ms|
    ensures var e := EnumRef(ms[i], tn, next); var more := EnumRefs(ms[i + 1..], tn, e.next);
      EnumRefs(ms[i..], tn, next) == Emitted(e.toks + more.toks, more.next)
  {
    hide EnumRef;
    assert ms[i..][1..] == ms[i + 1..];
  }

  lemma NoRefsLeft(ms: seq<Merge>, tn: nat, next: nat)
    ensures ms[0..] == ms && ms[|ms|..] == [] && EnumRefs([], tn, next) == Emitted([], next)
  {
  }

  method WriteEnumRefs(w: Writer, ms: seq<Merge>, tn: nat)
    modifies w
    ensures w.out == old(w.out) + EnumRefs(ms, tn, old(w.next)).toks && w.next == EnumRefs(ms, tn, old(w.next)).next
  {
    hide EnumRef, EnumRefs;
    ghost var all := EnumRefs(ms, tn, w.next);
    NoRefsLeft(ms, tn, w.next);
    assert w.out + all.toks == old(w.out) + all.toks;
    for i := 0 to |ms|
      invariant w.out + EnumRefs(ms[i..], tn, w.next).toks == old(w.out) + all.toks
      invariant EnumRefs(ms[i..], tn, w.next).next == all.next
    {
      ghost var was, n := w.out, w.next;
      RefsStep(ms, i, tn, n);
      WriteEnumRef(w, ms[i], tn);
      Regroup(was, EnumRef(ms[i], tn, n).toks, EnumRefs(ms[i + 1..], tn, w.next).toks);
    }
    NoRefsLeft(ms, tn, w.next);
    assert w.out + [] == w.out;
  }

  /** The first three merge fields; `first` remembers where the type names stand. */
  method WriteMerges(w: Writer, ms: seq<Merge>, first: Option<nat>) returns (tn: nat)
    requires ms != []
    modifies w
    ensures w.out == old(w.out) + Merges(ms, first, old(w.next)).toks
    ensures w.next == Merges(ms, first, old(w.next)).next && tn == SharedId(first, old(w.next))
  {
    hide EnumRefs, EnumFirst, NextId;
    if first.Some? {
      tn := first.value;
      WriteEnumRefs(w, ms, tn);
    } else {
      ghost var n := w.next;
      tn := WriteEnumFirst(w, ms[0]);
      ghost var middle := w.next;
      WriteEnumRefs(w, ms[1..], tn);
      MergesFirst(ms, n);
      Regroup(old(w.out), EnumFirst(ms[0], n).toks, EnumRefs(ms[1..], tn, middle).toks);
    }
  }

  lemma MergesFirst(ms: seq<Merge>, next: nat)
    requires ms != []
    ensures var e := EnumFirst(ms[0], next); var more := EnumRefs(ms[1..], NextId(next), e.next);
      Merges(ms, None, next) == Emitted(e.toks + more.toks, more.next)
  {
    hide EnumRefs, EnumFirst;
  }

  method WriteArgs(w: Writer, args: seq<Arg>, listId: nat)
    modifies w
    ensures w.out == old(w.out) + ArgsObj(args, listId, old(w.next)).toks
    ensures w.next == ArgsObj(args, listId, old(w.next)).next
  {
    hide OpenIdFirst, IdAttr, NextId, EncItems, Wrapped, ArgValues;
    ghost var n := w.next;
    var id := w.NewId();
    w.Push([OpenIdFirst("Args", id)]);
    w.Push([Empty("TNRef", [IdAttr(listId)])]);
    w.Items(ArgValues(args));
    w.Push([End("Obj")]);
    FourPieces(old(w.out), [OpenIdFirst("Args", n)], [Empty("TNRef", [IdAttr(listId)])],
               Wrapped("LST", EncItems(ArgValues(args), NextId(n)).toks), [End("Obj")]);
  }

  lemma FourPieces<T>(out: seq<T>, a: seq<T>, b: seq<T>, c: seq<T>, d: seq<T>)
    ensures (((out + a) + b) + c) + d == out + (a + (b + (c + d)))
  {
  }

  /** Members written one after the other, with no tags around them. */
  method WriteProps(w: Writer, props: seq<Prop>)
    requires forall i :: 0 <= i < |props| ==> props[i].name != VALUE
    modifies w
    ensures w.out == old(w.out) + EncProps(props, old(w.next)).toks && w.next == EncProps(props, old(w.next)).next
  {
    hide EncValue, EncProps;
    ghost var all := EncProps(props, w.next);
    assert props[0..] == props && props[|props|..] == [];
    for i := 0 to |props|
      invariant w.out + EncProps(props[i..], w.next).toks == old(w.out) + all.toks
      invariant EncProps(props[i..], w.next).next == all.next
    {
      ghost var was, n := w.out, w.next;
      PropsStep(props, i, n);
      w.Value(props[i].value, Some(props[i].name));
      Regroup(was, EncValue(props[i].value, Some(props[i].name), n).toks, EncProps(props[i + 1..], w.next).toks);
    }
    PropsStep(props, |props|, w.next);
    assert w.out + [] == w.out;
  }

  lemma HeadNames(c: Command, o: Options)
    ensures forall i :: 0 <= i < |CommandHead(c)| ==> CommandHead(c)[i].name != VALUE
    ensures forall i :: 0 <= i < |PowerShellHead()| ==> PowerShellHead()[i].name != VALUE
    ensures forall i :: 0 <= i < |PowerShellRest()| ==> PowerShellRest()[i].name != VALUE
    ensures forall i :: 0 <= i < |RootHead(o)| ==> RootHead(o)[i].name != VALUE
    ensures forall i :: 0 <= i < |RootRest()| ==> RootRest()[i].name != VALUE
  {
    hide PsEnum, HostInfoNull;
    var n := VALUE;
    assert |n| == 6;
    var c', p, q, r := CommandHead(c), PowerShellHead(), PowerShellRest(), RootHead(o);
    assert |c'[0].name| == 3 && |c'[1].name| == 8 && |c'[2].name| == 13;
    assert |p[0].name| == 8 && |p[1].name| == 9 && |q[0].name| == 7 && |q[1].name| == 28;
    assert |r[0].name| == 7 && |r[1].name| == 14 && |r[2].name| == 19 && |r[3].name| == 12 && |r[4].name| == 8;
  }

  method WriteCommand(w: Writer, c: Command, first: Option<nat>, listId: nat) returns (tn: nat)
    modifies w
    ensures w.out == old(w.out) + EncCommand(c, first, listId, old(w.next)).toks
    ensures w.next == EncCommand(c, first, listId, old(w.next)).next && tn == NextShared(c, first, old(w.next))
  {
    hide OpenObj, NextId, EncProps, CommandHead, Merges, MergeFields, LaterMerges, ArgsObj, EnumRefs, SharedId, MemberSet;
    HeadNames(c, Options(false, false, false));
    ghost var n := w.next;
    w.Open(None);
    w.Push([Start("MS", [])]);
    ghost var head := EncProps(CommandHead(c), w.next);
    WriteProps(w, CommandHead(c));
    ghost var merges := Merges(MergeFields(c), first, w.next);
    tn := WriteMerges(w, MergeFields(c), first);
    ghost var args := ArgsObj(c.args, listId, w.next);
    WriteArgs(w, c.args, listId);
    ghost var later := EnumRefs(LaterMerges(), tn, w.next);
    WriteEnumRefs(w, LaterMerges(), tn);
    w.Push([End("MS")] + [End("Obj")]);
    CommandWritten(old(w.out), [OpenObj(None, n)], head.toks, merges.toks, args.toks, later.toks);
  }

  lemma CommandWritten(out: seq<Token>, open: seq<Token>, a: seq<Token>, b: seq<Token>, c: seq<Token>, e: seq<Token>)
    ensures ((((((out + open) + [Start("MS", [])]) + a) + b) + c) + e) + ([End("MS")] + [End("Obj")])
         == out + (open + MemberSet(a + (b + (c + e))))
  {
    var ends := [End("MS")] + [End("Obj")];
    assert (((((((out + open) + [Start("MS", [])]) + a) + b) + c) + e) + ends)
        == out + (open + ([Start("MS", [])] + ((a + (b + (c + e))) + ends)));
  }

  lemma CommandsStep(cs: seq<Command>, i: nat, tn: Option<nat>, listId: nat, next: nat)
    requires i < |cs|
    ensures var e := EncCommand(cs[i], tn, listId, next);
      var more := EncCommands(cs[i + 1..], Some(NextShared(cs[i], tn, next)), listId, e.next);
      EncCommands(cs[i..], tn, listId, next) == Emitted(e.toks + more.toks, more.next)
  {
    hide EncCommand, NextShared;
    assert cs[i..][1..] == cs[i + 1..];
  }

  lemma NoCommands(cs: seq<Command>, tn: Option<nat>, listId: nat, next: nat)
    ensures cs[0..] == cs && cs[|cs|..] == [] && EncCommands([], tn, listId, next) == Emitted([], next)
  {
  }

  /** The loop over the commands, with `first_prt_tn` carried from one to the next. */
  method WriteCommands(w: Writer, cs: seq<Command>, listId: nat)
    modifies w
    ensures w.out == old(w.out) + EncCommands(cs, None, listId, old(w.next)).toks
    ensures w.next == EncCommands(cs, None, listId, old(w.next)).next
  {
    hide EncCommand, EncCommands, NextShared;
    ghost var all := EncCommands(cs, None, listId, w.next);
    var first: Option<nat> := None;
    NoCommands(cs, None, listId, w.next);
    for i := 0 to |cs|
      invariant w.out + EncCommands(cs[i..], first, listId, w.next).toks == old(w.out) + all.toks
      invariant EncCommands(cs[i..], first, listId, w.next).next == all.next
    {
      ghost var was, n, tn := w.out, w.next, first;
      CommandsStep(cs, i, tn, listId, n);
      var shared := WriteCommand(w, cs[i], first, listId);
      first := Some(shared);
      Regroup(was, EncCommand(cs[i], tn, listId, n).toks, EncCommands(cs[i + 1..], first, listId, w.next).toks);
    }
    NoCommands(cs, first, listId, w.next);
    assert w.out + [] == w.out;
  }

  method WriteCmds(w: Writer, cs: seq<Command>)
    modifies w
    ensures w.out == old(w.out) + CmdsObj(cs, old(w.next)).toks && w.next == CmdsObj(cs, old(w.next)).next
  {
    hide OpenIdFirst, NextId, EncCommands, TypeNameItems, Simple, Escape;
    ghost var n := w.next;
    var listId := w.NewId();
    var id := w.NewId();
    w.Push([OpenIdFirst("Cmds", id)]);
    w.Push(TypeNameBlock(COMMAND_LIST, listId));
    w.Push([Start("LST", [])]);
    ghost var cmds := EncCommands(cs, None, listId, w.next);
    WriteCommands(w, cs, listId);
    w.Push([End("LST")]);
    w.Push([End("Obj")]);
    CmdsWritten(old(w.out), [OpenIdFirst("Cmds", id)], TypeNameBlock(COMMAND_LIST, listId), cmds.toks);
  }

  lemma CmdsWritten(out: seq<Token>, open: seq<Token>, block: seq<Token>, items: seq<Token>)
    ensures (((((out + open) + block) + [Start("LST", [])]) + items) + [End("LST")]) + [End("Obj")]
         == out + (open + (block + (Wrapped("LST", items) + [End("Obj")])))
  {
    assert (((((out + open) + block) + [Start("LST", [])]) + items) + [End("LST")]) + [End("Obj")]
        == out + (open + (block + (([Start("LST", [])] + (items + [End("LST")])) + [End("Obj")])));
  }

  method WritePowerShell(w: Writer, cs: seq<Command>)
    modifies w
    ensures w.out == old(w.out) + PowerShellObj(cs, old(w.next)).toks && w.next == PowerShellObj(cs, old(w.next)).next
  {
    hide OpenObj, NextId, EncProps, PowerShellHead, PowerShellRest, CmdsObj, MemberSet;
    HeadNames(Command("", false, false, []), Options(false, false, false));
    ghost var n := w.next;
    w.Open(Some("PowerShell"));
    w.Push([Start("MS", [])]);
    ghost var head := EncProps(PowerShellHead(), w.next);
    WriteProps(w, PowerShellHead());
    ghost var cmds := CmdsObj(cs, w.next);
    WriteCmds(w, cs);
    ghost var last := EncProps(PowerShellRest(), w.next);
    WriteProps(w, PowerShellRest());
    w.Push([End("MS")] + [End("Obj")]);
    ObjectWritten(old(w.out), [OpenObj(Some("PowerShell"), n)], head.toks, cmds.toks, last.toks);
  }

  lemma ObjectWritten(out: seq<Token>, open: seq<Token>, a: seq<Token>, b: seq<Token>, c: seq<Token>)
    ensures (((((out + open) + [Start("MS", [])]) + a) + b) + c) + ([End("MS")] + [End("Obj")])
         == out + (open + MemberSet(a + (b + c)))
  {
    var ends := [End("MS")] + [End("Obj")];
    assert ((((((out + open) + [Start("MS", [])]) + a) + b) + c) + ends)
        == out + (open + ([Start("MS", [])] + ((a + (b + c)) + ends)));
  }

  /** `build_create_pipeline_xml`. */
  method BuildCreatePipelineXml(o: Options, cs: seq<Command>) returns (toks: seq<Token>)
    ensures toks == Document(o, cs).toks
  {
    hide OpenObj, NextId, EncProps, RootHead, RootRest, PowerShellObj, MemberSet;
    HeadNames(Command("", false, false, []), o);
    var w := new Writer();
    w.Open(None);
    w.Push([Start("MS", [])]);
    ghost var head := EncProps(RootHead(o), w.next);
    WriteProps(w, RootHead(o));
    ghost var power := PowerShellObj(cs, w.next);
    WritePowerShell(w, cs);
    ghost var last := EncProps(RootRest(), w.next);
    WriteProps(w, RootRest());
    w.Push([End("MS")] + [End("Obj")]);
    ObjectWritten([], [OpenObj(None, 0)], head.toks, power.toks, last.toks);
    toks := w.out;
  }
}
