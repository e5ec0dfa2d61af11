/** What a server finds in a `CreatePipeline` document, by the names of section 2.2.2.10 of MS-PSRP. */
module PipelineContent {
  import opened Common
  import opened Text
  import opened Xml
  import opened Values
  import opened Encoder
  import opened Decoder
  import opened RoundTrip
  import opened CreatePipeline
  import opened PipelineDecoding
  import opened PipelineIds
  import opened Escapes
  import opened ClixmlForm

  // ---- The content, independent of the builder ----

  /** An enumeration of this type, as its number under its full type names. */
  predicate IsEnum(v: Option<Value>, enumType: string, i: int) {
    && v.Some? && v.value.Object?
    && v.value.typeNames == [enumType, "System.Enum", "System.ValueType", "System.Object"]
    && Find(v.value.props, "_value") == Some(Int(I32, i))
  }

  /** The items of a list of `PSObject`s. */
  function ItemsOf(v: Option<Value>): Option<seq<Value>> {
    if v.Some? && v.value.Object? && |v.value.typeNames| == 2 && v.value.typeNames[1] == "System.Object"
       && v.value.typeNames[0] == "System.Collections.Generic.List`1[[System.Management.Automation.PSObject, System.Management.Automation, Version=1.0.0.0, Culture=neutral, PublicKeyToken=31bf3856ad364e35]]"
    then
      match Find(v.value.props, "_value")
      case Some(List(items)) => Some(items)
      case _ => None
    else None
  }

  /** An argument: its name, if it has one, and its value as it crosses the wire; a switch is true. */
  predicate IsArg(v: Value, a: Arg) {
    && v.Object?
    && match a
       case Named(name, value) =>
         Find(v.props, "N") == Some(Textual(Str, name)) && Find(v.props, "V") == Some(Norm(value))
       case Positional(value) => Find(v.props, "N") == Some(Null) && Find(v.props, "V") == Some(Norm(value))
       case Switch(name) =>
         Find(v.props, "N") == Some(Textual(Str, name)) && Find(v.props, "V") == Some(Bool(true))
  }

  predicate AreArgs(items: seq<Value>, args: seq<Arg>) {
    |items| == |args| && forall j :: 0 <= j < |args| ==> IsArg(items[j], args[j])
  }

  predicate IsMerge(v: Option<Value>, i: int) {
    IsEnum(v, "System.Management.Automation.Runspaces.PipelineResultTypes", i)
  }

  /** Error to output is merging result 2 into result 1; nothing else is merged. */
  predicate HasMerges(props: seq<Prop>, mergeErrors: bool) {
    && IsMerge(Find(props, "MergeMyResult"), if mergeErrors then 2 else 0)
    && IsMerge(Find(props, "MergeToResult"), if mergeErrors then 1 else 0)
    && IsMerge(Find(props, "MergePreviousResults"), 0) && IsMerge(Find(props, "MergeError"), 0)
    && IsMerge(Find(props, "MergeWarning"), 0) && IsMerge(Find(props, "MergeVerbose"), 0)
    && IsMerge(Find(props, "MergeDebug"), 0) && IsMerge(Find(props, "MergeInformation"), 0)
  }

  predicate IsCommand(v: Value, c: Command) {
    && v.Object? && HasMerges(v.props, c.mergeErrors)
    && Find(v.props, "Cmd") == Some(Textual(Str, c.name)) && Find(v.props, "IsScript") == Some(Bool(c.isScript))
    && Find(v.props, "UseLocalScope") == Some(Null)
    && ItemsOf(Find(v.props, "Args")).Some? && AreArgs(ItemsOf(Find(v.props, "Args")).value, c.args)
  }

  predicate AreCommands(items: seq<Value>, cs: seq<Command>) {
    |items| == |cs| && forall i :: 0 <= i < |cs| ==> IsCommand(items[i], cs[i])
  }

  predicate IsPowerShell(v: Value, cs: seq<Command>) {
    && v.Object? && Find(v.props, "IsNested") == Some(Bool(false)) && Find(v.props, "ExtraCmds") == Some(Null)
    && Find(v.props, "History") == Some(Null) && Find(v.props, "RedirectShellErrorOutputPipe") == Some(Bool(false))
    && ItemsOf(Find(v.props, "Cmds")).Some? && AreCommands(ItemsOf(Find(v.props, "Cmds")).value, cs)
  }

  /** No host of its own: the one of the runspace pool. */
  predicate IsNoHost(v: Option<Value>) {
    && v.Some? && v.value.Object?
    && Find(v.value.props, "_isHostNull") == Some(Bool(true)) && Find(v.value.props, "_isHostUINull") == Some(Bool(true))
    && Find(v.value.props, "_isHostRawUINull") == Some(Bool(true))
    && Find(v.value.props, "_useRunspaceHost") == Some(Bool(true))
  }

  predicate IsPipeline(v: Value, o: Options, cs: seq<Command>) {
    && v.Object? && Find(v.props, "NoInput") == Some(Bool(o.noInput))
    && Find(v.props, "AddToHistory") == Some(Bool(o.addToHistory)) && Find(v.props, "IsNested") == Some(Bool(false))
    && IsEnum(Find(v.props, "ApartmentState"), "System.Management.Automation.Runspaces.ApartmentState", 2)
    && IsEnum(Find(v.props, "RemoteStreamOptions"), "System.Management.Automation.Runspaces.RemoteStreamOptions",
              if o.addInvocationInfo then 15 else 0)
    && IsNoHost(Find(v.props, "HostInfo"))
    && Find(v.props, "PowerShell").Some? && IsPowerShell(Find(v.props, "PowerShell").value, cs)
  }

  // ---- What the builder writes has it ----

  lemma {:induction false} NormPropsAt(props: seq<Prop>, i: nat)
    requires i < |props| && forall j :: 0 <= j < |props| ==> props[j].name != VALUE
    ensures |NormProps(props)| == |props| && NormProps(props)[i] == Prop(props[i].name, Norm(props[i].value))
  {
    hide Norm;
    if i > 0 {
      NormPropsAt(props[1..], i - 1);
    } else if |props| > 1 {
      NormPropsAt(props[1..], 0);
    } else {
      assert props[1..] == [];
    }
  }

  lemma EnumIs(enumType: string, i: int)
    ensures IsEnum(Some(EnumValue(enumType, i)), enumType, i)
  {
    FindAt(EnumValue(enumType, i).props, 0);
  }

  lemma EnumNorm(enumType: string, shown: string, i: int)
    ensures Norm(PsEnum(enumType, shown, i)) == EnumValue(enumType, i)
  {
    var v := Int(I32, i);
    NormWrapped(v);
    assert NormBare(v) == v;
  }

  lemma ListIs(items: seq<Value>)
    ensures ItemsOf(Some(ListObject(items))) == Some(items)
  {
    hide Find;
    FindAt(ListObject(items).props, 0);
  }

  lemma ArgIs(a: Arg)
    ensures IsArg(Norm(ArgValue(a)), a)
  {
    hide Norm, Find;
    var props := ArgValue(a).props;
    assert |"N"| == 1 && |"V"| == 1 && |VALUE| == 6 && "N"[0] != "V"[0];
    NormPropsAt(props, 0);
    NormPropsAt(props, 1);
    NormObject(ArgValue(a));
    Scalars();
    var read := Norm(ArgValue(a)).props;
    FindAt(read, 0);
    FindAt(read, 1);
  }

  lemma NormObject(v: Value)
    requires v.Object? && NormProps(v.props) != []
    ensures Norm(v) == Object(v.typeNames, None, NormProps(v.props))
  {
    hide NormProps, NormValue;
  }

  lemma Scalars()
    ensures Norm(Null) == Null
    ensures forall b :: Norm(Bool(b)) == Bool(b)
    ensures forall k, s :: Norm(Textual(k, s)) == Textual(k, s)
  {
  }

  lemma {:induction false} ArgsAre(args: seq<Arg>)
    ensures AreArgs(NormItems(ArgValues(args)), args)
  {
    hide Norm, IsArg, ArgValue;
    if args != [] {
      ArgsAre(args[1..]);
      ArgIs(args[0]);
      assert ArgValues(args)[1..] == ArgValues(args[1..]);
      assert NormItems(ArgValues(args))[1..] == NormItems(ArgValues(args[1..]));
    }
  }

  /** The merge fields of a command, where they stand. */
  lemma MergesStand(c: Command)
    ensures var p := CommandProps(c);
      && |p| == 12
      && p[3].value == EnumValue(RESULT_TYPES, if c.mergeErrors then 2 else 0)
      && p[4].value == EnumValue(RESULT_TYPES, if c.mergeErrors then 1 else 0)
      && p[5].value == EnumValue(RESULT_TYPES, 0)
      && p[6].value == ListObject(NormItems(ArgValues(c.args)))
      && forall i :: 7 <= i < 12 ==> p[i].value == EnumValue(RESULT_TYPES, 0)
  {
    hide Norm, EnumValue, ListObject, NormItems, ArgValues;
    HeadStands(c);
    var a, b := NormProps(CommandHead(c)), MergeProps(MergeFields(c));
    var args, later := [Prop("Args", ListObject(NormItems(ArgValues(c.args))))], MergeProps(LaterMerges());
    Quarters(a, b, args, later);
  }

  lemma Quarters<T>(a: seq<T>, b: seq<T>, c: seq<T>, d: seq<T>)
    requires |a| == 3 && |b| == 3 && |c| == 1 && |d| == 5
    ensures var p := a + (b + (c + d));
      && |p| == 12 && p[0] == a[0] && p[1] == a[1] && p[2] == a[2] && p[3] == b[0] && p[4] == b[1] && p[5] == b[2]
      && p[6] == c[0] && forall i :: 7 <= i < 12 ==> p[i] == d[i - 7]
  {
  }

  /** What stands before them. */
  lemma HeadStands(c: Command)
    ensures var p := CommandProps(c); var h := NormProps(CommandHead(c));
      && |h| == 3 && |p| == 12 && p[0] == h[0] && p[1] == h[1] && p[2] == h[2]
      && h[0].value == Textual(Str, c.name) && h[1].value == Bool(c.isScript) && h[2].value == Null
  {
    hide Norm, EnumValue, ListObject, NormItems, ArgValues, NormProps;
    CommandNamesDiffer();
    var head := CommandHead(c);
    assert |"Cmd"| == 3 && |"IsScript"| == 8 && |"UseLocalScope"| == 13 && |VALUE| == 6;
    NormPropsAt(head, 0);
    NormPropsAt(head, 1);
    NormPropsAt(head, 2);
    Scalars();
    Quarters(NormProps(head), MergeProps(MergeFields(c)), [Prop("Args", ListObject(NormItems(ArgValues(c.args))))],
             MergeProps(LaterMerges()));
  }

  lemma MergesAre(c: Command)
    ensures HasMerges(CommandProps(c), c.mergeErrors)
  {
    hide Find, Norm, EnumValue, ListObject, NormItems, ArgValues, NormProps, CommandProps, IsEnum;
    var p := CommandProps(c);
    CommandPropsNames(c);
    MergesStand(c);
    EnumIs(RESULT_TYPES, 0);
    EnumIs(RESULT_TYPES, 1);
    EnumIs(RESULT_TYPES, 2);
    FindAt(p, 3);
    FindAt(p, 4);
    FindAt(p, 5);
    FindAt(p, 7);
    FindAt(p, 8);
    FindAt(p, 9);
    FindAt(p, 10);
    FindAt(p, 11);
  }

  lemma CommandIs(c: Command)
    ensures IsCommand(CommandValue(c), c)
  {
    hide Find, Norm, EnumValue, ListObject, NormItems, ArgValues, NormProps, CommandProps, HasMerges, ItemsOf, AreArgs;
    var p := CommandProps(c);
    CommandPropsNames(c);
    HeadStands(c);
    MergesStand(c);
    FindAt(p, 0);
    FindAt(p, 1);
    FindAt(p, 2);
    FindAt(p, 6);
    MergesAre(c);
    ArgsAre(c.args);
    ListIs(NormItems(ArgValues(c.args)));
  }

  lemma {:induction false} CommandsAre(cs: seq<Command>)
    ensures AreCommands(CommandValues(cs), cs)
  {
    hide IsCommand, CommandValue;
    if cs != [] {
      CommandIs(cs[0]);
      CommandsAre(cs[1..]);
      assert CommandValues(cs)[1..] == CommandValues(cs[1..]);
    }
  }

  lemma PowerShellIs(cs: seq<Command>)
    ensures IsPowerShell(Object([], None, PowerShellProps(cs)), cs)
  {
    hide Find, Norm, ListObject, CommandValues, NormProps, ItemsOf, AreCommands;
    var p, n := PowerShellProps(cs), POWER_NAMES;
    PowerShellPropsNames(cs);
    assert |n[0]| == 8 && |n[1]| == 9 && |n[3]| == 7 && |n[4]| == 28 && |VALUE| == 6;
    NormPropsAt(PowerShellHead(), 0);
    NormPropsAt(PowerShellHead(), 1);
    NormPropsAt(PowerShellRest(), 0);
    NormPropsAt(PowerShellRest(), 1);
    Scalars();
    FindAt(p, 0);
    FindAt(p, 1);
    FindAt(p, 2);
    FindAt(p, 3);
    FindAt(p, 4);
    CommandsAre(cs);
    ListIs(CommandValues(cs));
  }

  lemma NoHostIs()
    ensures IsNoHost(Some(Norm(HostInfoNull())))
  {
    hide Find, Norm, NormProps;
    var props := HostInfoNull().props;
    assert |"_isHostNull"| == 11 && |"_isHostUINull"| == 13 && |"_isHostRawUINull"| == 16 && |"_useRunspaceHost"| == 16
        && |VALUE| == 6 && "_isHostRawUINull"[1] != "_useRunspaceHost"[1];
    NormPropsAt(props, 0);
    NormPropsAt(props, 1);
    NormPropsAt(props, 2);
    NormPropsAt(props, 3);
    NormObject(HostInfoNull());
    Scalars();
    var read := Norm(HostInfoNull()).props;
    FindAt(read, 0);
    FindAt(read, 1);
    FindAt(read, 2);
    FindAt(read, 3);
  }

  lemma RootStands(o: Options, cs: seq<Command>)
    ensures var p := RootProps(o, cs);
      && |p| == 7 && p[0].value == Bool(o.noInput)
      && p[1].value == EnumValue("System.Management.Automation.Runspaces.ApartmentState", 2)
      && p[2].value == EnumValue("System.Management.Automation.Runspaces.RemoteStreamOptions",
                                 if o.addInvocationInfo then 15 else 0)
      && p[3].value == Bool(o.addToHistory) && p[4].value == Norm(HostInfoNull())
      && p[5].value == Object([], None, PowerShellProps(cs)) && p[6].value == Bool(false)
  {
    hide Norm, NormProps, PowerShellProps, PsEnum, HostInfoNull, EnumValue;
    var n := ROOT_NAMES;
    assert |n[0]| == 7 && |n[1]| == 14 && |n[2]| == 19 && |n[3]| == 12 && |n[4]| == 8 && |n[6]| == 8 && |VALUE| == 6;
    var head := RootHead(o);
    NormPropsAt(head, 0);
    NormPropsAt(head, 1);
    NormPropsAt(head, 2);
    NormPropsAt(head, 3);
    NormPropsAt(head, 4);
    NormPropsAt(RootRest(), 0);
    Scalars();
    EnumNorm("System.Management.Automation.Runspaces.ApartmentState", "UNKNOWN", 2);
    EnumNorm("System.Management.Automation.Runspaces.RemoteStreamOptions",
             if o.addInvocationInfo then "AddInvocationInfo" else "None", if o.addInvocationInfo then 15 else 0);
  }

  lemma PipelineIs(o: Options, cs: seq<Command>)
    ensures IsPipeline(PipelineValue(o, cs), o, cs)
  {
    hide Find, Norm, NormProps, PowerShellProps, HostInfoNull, EnumValue, RootProps, IsEnum, IsNoHost, IsPowerShell;
    var p := RootProps(o, cs);
    RootPropsNames(o, cs);
    RootStands(o, cs);
    FindAt(p, 0);
    FindAt(p, 1);
    FindAt(p, 2);
    FindAt(p, 3);
    FindAt(p, 4);
    FindAt(p, 5);
    FindAt(p, 6);
    EnumIs("System.Management.Automation.Runspaces.ApartmentState", 2);
    EnumIs("System.Management.Automation.Runspaces.RemoteStreamOptions", if o.addInvocationInfo then 15 else 0);
    NoHostIs();
    PowerShellIs(cs);
  }

  /** The document arrives whole, exactly when every argument fits under the elements around it. */
  predicate Arrives(r: Result<seq<Value>, Xml.Fault>, o: Options, cs: seq<Command>) {
    if forall i :: 0 <= i < |cs| ==> CommandFits(cs[i]) then r.Ok? && |r.value| == 1 && IsPipeline(r.value[0], o, cs)
    else r == Err(TooDeep)
  }

  /**
   * A server that decodes the document finds every command with its name, flags, merge fields and arguments, and every
   * option, exactly when the arguments fit.
   */
  lemma PipelineArrives(o: Options, cs: seq<Command>, length: nat)
    requires AllWf(cs) && Issuable(o, cs)
    ensures Arrives(ParseClixml(Document(o, cs).toks, length), o, cs)
  {
    hide Document, ParseClixml, CommandWf, CommandFits, PipelineValue, IsPipeline;
    PipelineRoundTrip(o, cs, length);
    PipelineIs(o, cs);
  }

  // ---- What the decoder passes over ----

  /** A merge field points to the type names, and shows the name of its number before the number itself. */
  lemma MergeAsWritten(m: Merge, tn: nat, next: nat)
    ensures EnumRef(m, tn, next).toks
         == [ObjectTag(Some(m.name), next), Empty("TNRef", [Attr("RefId", ShowNat(tn))])]
            + (Written("ToString", None, Escape(m.shown, false)) + (Written("I32", None, ShowInt(m.i)) + [End("Obj")]))
  {
    hide Lex, Escape, ShowNat, ShowInt;
  }

  lemma MergesShown(c: Command)
    ensures MergeFields(c)[0].shown == (if c.mergeErrors then "Error" else "None")
    ensures MergeFields(c)[1].shown == (if c.mergeErrors then "Output" else "None")
    ensures MergeFields(c)[2].shown == "None" && |LaterMerges()| == 5
    ensures forall i :: 0 <= i < 5 ==> LaterMerges()[i].shown == "None"
  {
  }
}
