/** The `CreatePipeline` document (section 2.2.2.10 of MS-PSRP) and what a decoder makes of it. */
module CreatePipeline {
  import opened Common
  import opened Text
  import opened Escapes
  import opened Xml
  import opened Values
  import opened Encoder
  import opened Decoder
  import opened RoundTrip
  import opened RefIds

  datatype Arg =
    | Named(name: string, value: Value)
    | Positional(value: Value)
    | Switch(name: string)

  datatype Command = Command(name: string, isScript: bool, mergeErrors: bool, args: seq<Arg>)

  datatype Options = Options(noInput: bool, addToHistory: bool, addInvocationInfo: bool)

  const RESULT_TYPES := "System.Management.Automation.Runspaces.PipelineResultTypes"
  const COMMAND_LIST: seq<string> :=
    ["System.Collections.Generic.List`1[[System.Management.Automation.PSObject, System.Management.Automation, Version=1.0.0.0, Culture=neutral, PublicKeyToken=31bf3856ad364e35]]",
     "System.Object"]

  // ---- The document ----

  function EnumNames(enumType: string): seq<string> {
    [enumType, "System.Enum", "System.ValueType", "System.Object"]
  }

  /** `ps_enum`. */
  function PsEnum(enumType: string, shown: string, i: int): Value {
    Object(EnumNames(enumType), Some(shown), [Prop(VALUE, Int(I32, i))])
  }

  /** `ps_host_info_null`. */
  function HostInfoNull(): Value {
    Object([], None, [Prop("_isHostNull", Bool(true)), Prop("_isHostUINull", Bool(true)),
                      Prop("_isHostRawUINull", Bool(true)), Prop("_useRunspaceHost", Bool(true))])
  }

  datatype Merge = Merge(name: string, shown: string, i: int)

  function MergeFields(c: Command): (r: seq<Merge>)
    ensures |r| == 3
  {
    [Merge("MergeMyResult", if c.mergeErrors then "Error" else "None", if c.mergeErrors then 2 else 0),
     Merge("MergeToResult", if c.mergeErrors then "Output" else "None", if c.mergeErrors then 1 else 0),
     Merge("MergePreviousResults", "None", 0)]
  }

  function LaterMerges(): seq<Merge> {
    [Merge("MergeError", "None", 0), Merge("MergeWarning", "None", 0), Merge("MergeVerbose", "None", 0),
     Merge("MergeDebug", "None", 0), Merge("MergeInformation", "None", 0)]
  }

  function Number(i: int): seq<Token> {
    Simple("I32", ShowInt(i), None)
  }

  function EnumTail(m: Merge): seq<Token> {
    DisplayBlock(Some(m.shown)) + (Number(m.i) + [End("Obj")])
  }

  /** `write_enum_first_in_group`: the type names come in full, under the second id. */
  function EnumFirst(m: Merge, next: nat): Emitted {
    Emitted([OpenObj(Some(m.name), next)] + (TypeNameBlock(EnumNames(RESULT_TYPES), NextId(next)) + EnumTail(m)),
            NextId(NextId(next)))
  }

  /** `write_enum_with_tnref`. */
  function EnumRef(m: Merge, tn: nat, next: nat): Emitted {
    Emitted([OpenObj(Some(m.name), next)] + ([Empty("TNRef", [IdAttr(tn)])] + EnumTail(m)), NextId(next))
  }

  function EnumRefs(ms: seq<Merge>, tn: nat, next: nat): (r: Emitted)
    ensures next <= r.next
  {
    if ms == [] then Emitted([], next)
    else
      var e := EnumRef(ms[0], tn, next);
      var more := EnumRefs(ms[1..], tn, e.next);
      Emitted(e.toks + more.toks, more.next)
  }

  /** The first three fields: the very first of the document carries the type names, the others point to them. */
  function Merges(ms: seq<Merge>, tn: Option<nat>, next: nat): (r: Emitted)
    requires ms != []
    ensures next <= r.next
  {
    match tn
    case Some(t) => EnumRefs(ms, t, next)
    case None =>
      var e := EnumFirst(ms[0], next);
      var more := EnumRefs(ms[1..], NextId(next), e.next);
      Emitted(e.toks + more.toks, more.next)
  }

  function SharedId(tn: Option<nat>, next: nat): nat {
    if tn.Some? then tn.value else NextId(next)
  }

  function ArgContent(a: Arg): Value {
    if a.Switch? then Bool(true) else a.value
  }

  function ArgValue(a: Arg): Value {
    Object([], None, [Prop("N", if a.Positional? then Null else Textual(Str, a.name)), Prop("V", ArgContent(a))])
  }

  function ArgValues(args: seq<Arg>): (r: seq<Value>)
    ensures |r| == |args| && forall i :: 0 <= i < |args| ==> r[i] == ArgValue(args[i])
  {
    if args == [] then [] else [ArgValue(args[0])] + ArgValues(args[1..])
  }

  /** An object whose id attribute comes before its name. */
  function OpenIdFirst(name: string, id: nat): Token {
    Start("Obj", [IdAttr(id)] + NameAttr(Some(name)))
  }

  function ArgsObj(args: seq<Arg>, listId: nat, next: nat): (r: Emitted)
    ensures next <= r.next
  {
    var e := EncItems(ArgValues(args), NextId(next));
    Emitted([OpenIdFirst("Args", next)] + ([Empty("TNRef", [IdAttr(listId)])] + (Wrapped("LST", e.toks) + [End("Obj")])),
            e.next)
  }

  function CommandHead(c: Command): seq<Prop> {
    [Prop("Cmd", Textual(Str, c.name)), Prop("IsScript", Bool(c.isScript)), Prop("UseLocalScope", Null)]
  }

  function MemberSet(toks: seq<Token>): seq<Token> {
    [Start("MS", [])] + (toks + ([End("MS")] + [End("Obj")]))
  }

  function EncCommand(c: Command, tn: Option<nat>, listId: nat, next: nat): (r: Emitted)
    ensures next <= r.next
  {
    var head := EncProps(CommandHead(c), NextId(next));
    var merges := Merges(MergeFields(c), tn, head.next);
    var args := ArgsObj(c.args, listId, merges.next);
    var later := EnumRefs(LaterMerges(), SharedId(tn, head.next), args.next);
    Emitted([OpenObj(None, next)] + MemberSet(head.toks + (merges.toks + (args.toks + later.toks))), later.next)
  }

  /** The id under which the commands after this one find the type names of the merge fields. */
  function NextShared(c: Command, tn: Option<nat>, next: nat): nat {
    SharedId(tn, EncProps(CommandHead(c), NextId(next)).next)
  }

  function EncCommands(cs: seq<Command>, tn: Option<nat>, listId: nat, next: nat): (r: Emitted)
    ensures next <= r.next
    decreases cs
  {
    if cs == [] then Emitted([], next)
    else
      var e := EncCommand(cs[0], tn, listId, next);
      var more := EncCommands(cs[1..], Some(NextShared(cs[0], tn, next)), listId, e.next);
      Emitted(e.toks + more.toks, more.next)
  }

  /** The command list: its type names take their id before the object itself does. */
  function CmdsObj(cs: seq<Command>, next: nat): (r: Emitted)
    ensures next <= r.next
  {
    var e := EncCommands(cs, None, next, NextId(NextId(next)));
    Emitted([OpenIdFirst("Cmds", NextId(next))]
            + (TypeNameBlock(COMMAND_LIST, next) + (Wrapped("LST", e.toks) + [End("Obj")])), e.next)
  }

  function PowerShellHead(): seq<Prop> {
    [Prop("IsNested", Bool(false)), Prop("ExtraCmds", Null)]
  }

  function PowerShellRest(): seq<Prop> {
    [Prop("History", Null), Prop("RedirectShellErrorOutputPipe", Bool(false))]
  }

  function PowerShellObj(cs: seq<Command>, next: nat): (r: Emitted)
    ensures next <= r.next
  {
    var head := EncProps(PowerShellHead(), NextId(next));
    var cmds := CmdsObj(cs, head.next);
    var last := EncProps(PowerShellRest(), cmds.next);
    Emitted([OpenObj(Some("PowerShell"), next)] + MemberSet(head.toks + (cmds.toks + last.toks)), last.next)
  }

  function RootHead(o: Options): seq<Prop> {
    [Prop("NoInput", Bool(o.noInput)),
     Prop("ApartmentState", PsEnum("System.Management.Automation.Runspaces.ApartmentState", "UNKNOWN", 2)),
     Prop("RemoteStreamOptions",
          PsEnum("System.Management.Automation.Runspaces.RemoteStreamOptions",
                 if o.addInvocationInfo then "AddInvocationInfo" else "None", if o.addInvocationInfo then 15 else 0)),
     Prop("AddToHistory", Bool(o.addToHistory)),
     Prop("HostInfo", HostInfoNull())]
  }

  function RootRest(): seq<Prop> {
    [Prop("IsNested", Bool(false))]
  }

  /** `build_create_pipeline_xml`. */
  function Document(o: Options, cs: seq<Command>): Emitted {
    var head := EncProps(RootHead(o), NextId(0));
    var power := PowerShellObj(cs, head.next);
    var last := EncProps(RootRest(), power.next);
    Emitted([OpenObj(None, 0)] + MemberSet(head.toks + (power.toks + last.toks)), last.next)
  }

  // ---- What it stands for ----

  function EnumValue(enumType: string, i: int): Value {
    Object(EnumNames(enumType), None, [Prop(VALUE, Int(I32, i))])
  }

  function MergeProps(ms: seq<Merge>): (r: seq<Prop>)
    ensures |r| == |ms|
    ensures forall i :: 0 <= i < |ms| ==> r[i] == Prop(ms[i].name, EnumValue(RESULT_TYPES, ms[i].i))
  {
    if ms == [] then [] else [Prop(ms[0].name, EnumValue(RESULT_TYPES, ms[0].i))] + MergeProps(ms[1..])
  }

  /** A list object with the type names of the command list. */
  function ListObject(items: seq<Value>): Value {
    Object(COMMAND_LIST, None, [Prop(VALUE, List(items))])
  }

  function CommandProps(c: Command): seq<Prop> {
    NormProps(CommandHead(c))
    + (MergeProps(MergeFields(c)) + ([Prop("Args", ListObject(NormItems(ArgValues(c.args))))] + MergeProps(LaterMerges())))
  }

  function CommandValue(c: Command): Value {
    Object([], None, CommandProps(c))
  }

  function CommandValues(cs: seq<Command>): seq<Value> {
    if cs == [] then [] else [CommandValue(cs[0])] + CommandValues(cs[1..])
  }

  function PowerShellProps(cs: seq<Command>): seq<Prop> {
    NormProps(PowerShellHead()) + ([Prop("Cmds", ListObject(CommandValues(cs)))] + NormProps(PowerShellRest()))
  }

  /** The value a decoder gives for the document. */
  function PipelineValue(o: Options, cs: seq<Command>): Value {
    Object([], None, RootProps(o, cs))
  }

  function RootProps(o: Options, cs: seq<Command>): seq<Prop> {
    NormProps(RootHead(o)) + ([Prop("PowerShell", Object([], None, PowerShellProps(cs)))] + NormProps(RootRest()))
  }

  predicate CommandWf(c: Command) {
    forall i :: 0 <= i < |c.args| ==> Wf(ArgContent(c.args[i]))
  }

  /** An argument value has six elements around it. */
  predicate CommandFits(c: Command) {
    forall i :: 0 <= i < |c.args| ==> 6 + Nesting(ArgContent(c.args[i])) <= MAX_NESTING_DEPTH
  }

  // ---- Names ----

  lemma DistinctParts(a: seq<Prop>, b: seq<Prop>)
    requires DistinctNames(a + b)
    ensures DistinctNames(a) && DistinctNames(b) && NewNames(a, b)
  {
    forall i, j | 0 <= i < j < |a| ensures a[i].name != a[j].name {
      assert (a + b)[i] == a[i] && (a + b)[j] == a[j];
    }
    forall i, j | 0 <= i < j < |b| ensures b[i].name != b[j].name {
      assert (a + b)[|a| + i] == b[i] && (a + b)[|a| + j] == b[j];
    }
    forall i, j | 0 <= i < |a| && 0 <= j < |b| ensures a[i].name != b[j].name {
      assert (a + b)[i] == a[i] && (a + b)[|a| + j] == b[j];
    }
  }

  predicate HasNames(props: seq<Prop>, names: seq<string>) {
    |props| == |names| && forall i :: 0 <= i < |props| ==> props[i].name == names[i]
  }

  lemma NamesAreDistinct(props: seq<Prop>, names: seq<string>)
    requires HasNames(props, names) && Distinct(names)
    ensures DistinctNames(props)
  {
  }

  lemma SameNames(a: seq<Prop>, b: seq<Prop>, names: seq<string>)
    requires HasNames(a, names) && HasNames(b, names)
    ensures DistinctNames(a) ==> DistinctNames(b)
    ensures forall x: seq<Prop> :: NewNames(x, a) ==> NewNames(x, b)
  {
    forall x: seq<Prop> | NewNames(x, a) ensures NewNames(x, b) {
      forall i, j | 0 <= i < |x| && 0 <= j < |b| ensures x[i].name != b[j].name {
        assert x[i].name != a[j].name;
      }
    }
  }

  lemma HasNamesAppend(a: seq<Prop>, b: seq<Prop>, m: seq<string>, n: seq<string>)
    requires HasNames(a, m) && HasNames(b, n)
    ensures HasNames(a + b, m + n)
  {
  }

  /** A plain list of properties keeps its names in the normal form. */
  lemma {:induction false} NormPropsNames(props: seq<Prop>, names: seq<string>)
    requires HasNames(props, names) && VALUE !in names
    ensures HasNames(NormProps(props), names)
  {
    hide Norm;
    if props != [] {
      assert props[0].name in names;
      NormPropsNames(props[1..], names[1..]);
    }
  }
}
