/** Decoding a `CreatePipeline` document gives back every command, flag, merge field and argument. */
module PipelineDecoding {
  import opened Common
  import opened Text
  import opened Escapes
  import opened Xml
  import opened Values
  import opened Encoder
  import opened Decoder
  import opened RoundTrip
  import opened RefIds
  import opened CreatePipeline

  // ---- Names ----

  const COMMAND_NAMES: seq<string> :=
    ["Cmd", "IsScript", "UseLocalScope", "MergeMyResult", "MergeToResult", "MergePreviousResults", "Args",
     "MergeError", "MergeWarning", "MergeVerbose", "MergeDebug", "MergeInformation"]

  lemma CommandNamesDiffer()
    ensures Distinct(COMMAND_NAMES) && VALUE !in COMMAND_NAMES
  {
    var n := COMMAND_NAMES;
    assert |n[0]| == 3 && |n[1]| == 8 && |n[2]| == 13 && |n[3]| == 13 && |n[4]| == 13 && |n[5]| == 20 && |n[6]| == 4
        && |n[7]| == 10 && |n[8]| == 12 && |n[9]| == 12 && |n[10]| == 10 && |n[11]| == 16 && |VALUE| == 6;
    assert n[2][0] == 'U' && n[3][5] == 'M' && n[4][5] == 'T' && n[3][0] == 'M' && n[4][0] == 'M';
    assert n[7][5] == 'E' && n[10][5] == 'D' && n[8][5] == 'W' && n[9][5] == 'V';
  }

  lemma CommandPropsNames(c: Command)
    ensures HasNames(CommandProps(c), COMMAND_NAMES) && DistinctNames(CommandProps(c))
  {
    hide Norm, EnumValue, ListObject, NormItems, ArgValues;
    CommandNamesDiffer();
    var n := COMMAND_NAMES;
    assert HasNames(CommandHead(c), n[..3]);
    assert VALUE !in n[..3];
    NormPropsNames(CommandHead(c), n[..3]);
    var args := [Prop("Args", ListObject(NormItems(ArgValues(c.args))))];
    HasNamesAppend(args, MergeProps(LaterMerges()), n[6..7], n[7..]);
    HasNamesAppend(MergeProps(MergeFields(c)), args + MergeProps(LaterMerges()), n[3..6], n[6..7] + n[7..]);
    HasNamesAppend(NormProps(CommandHead(c)), MergeProps(MergeFields(c)) + (args + MergeProps(LaterMerges())),
                   n[..3], n[3..6] + (n[6..7] + n[7..]));
    assert n[..3] + (n[3..6] + (n[6..7] + n[7..])) == n;
    NamesAreDistinct(CommandProps(c), n);
  }

  const POWER_NAMES: seq<string> := ["IsNested", "ExtraCmds", "Cmds", "History", "RedirectShellErrorOutputPipe"]

  lemma PowerShellPropsNames(cs: seq<Command>)
    ensures HasNames(PowerShellProps(cs), POWER_NAMES) && DistinctNames(PowerShellProps(cs))
  {
    hide Norm, ListObject, CommandValues;
    var n := POWER_NAMES;
    assert |n[0]| == 8 && |n[1]| == 9 && |n[2]| == 4 && |n[3]| == 7 && |n[4]| == 28 && |VALUE| == 6;
    assert Distinct(n) && VALUE !in n;
    NormPropsNames(PowerShellHead(), n[..2]);
    NormPropsNames(PowerShellRest(), n[3..]);
    var cmds := [Prop("Cmds", ListObject(CommandValues(cs)))];
    HasNamesAppend(cmds, NormProps(PowerShellRest()), n[2..3], n[3..]);
    HasNamesAppend(NormProps(PowerShellHead()), cmds + NormProps(PowerShellRest()), n[..2], n[2..3] + n[3..]);
    assert n[..2] + (n[2..3] + n[3..]) == n;
    NamesAreDistinct(PowerShellProps(cs), n);
  }

  const ROOT_NAMES: seq<string> :=
    ["NoInput", "ApartmentState", "RemoteStreamOptions", "AddToHistory", "HostInfo", "PowerShell", "IsNested"]

  lemma RootPropsNames(o: Options, cs: seq<Command>)
    ensures HasNames(RootProps(o, cs), ROOT_NAMES) && DistinctNames(RootProps(o, cs))
  {
    hide Norm, PowerShellProps, PsEnum, HostInfoNull;
    var n := ROOT_NAMES;
    assert |n[0]| == 7 && |n[1]| == 14 && |n[2]| == 19 && |n[3]| == 12 && |n[4]| == 8 && |n[5]| == 10 && |n[6]| == 8
        && |VALUE| == 6;
    assert n[4][0] == 'H' && n[6][0] == 'I';
    assert Distinct(n) && VALUE !in n;
    NormPropsNames(RootHead(o), n[..5]);
    NormPropsNames(RootRest(), n[6..]);
    var power := [Prop("PowerShell", Object([], None, PowerShellProps(cs)))];
    HasNamesAppend(power, NormProps(RootRest()), n[5..6], n[6..]);
    HasNamesAppend(NormProps(RootHead(o)), power + NormProps(RootRest()), n[..5], n[5..6] + n[6..]);
    assert n[..5] + (n[5..6] + n[6..]) == n;
    NamesAreDistinct(RootProps(o, cs), n);
  }

  // ---- Steps ----

  predicate Knows(d: Dec, id: nat, names: seq<string>) {
    ShowNat(id) in d.typeNames && d.typeNames[ShowNat(id)] == names
  }

  lemma StillKnows(a: Dec, b: Dec, tail: seq<Token>, next: nat, id: nat, names: seq<string>)
    requires Resumes(a, b, tail, next) && Knows(a, id, names) && id < next
    ensures Knows(b, id, names)
  {
    hide ShowNat;
  }

  /** An object as a member. */
  lemma MemberObj(p: Policy, d: Dec, depth: nat, acc: seq<Prop>, closing: string, name: string)
    requires NoRefs(p) && depth < MAX_NESTING_DEPTH && d.rest != [] && d.rest[0].Start? && d.rest[0].tag == "Obj"
    requires NameOf(d.rest[0].attrs) == Ok(Some(name)) && RefIdOf(d.rest[0].attrs).Ok?
    ensures var r := ParseObjBody(p, d.(rest := d.rest[1..]), depth + 1, [], [], None);
      ParseMemberSet(p, d, depth, acc, closing)
        == if r.Err? then Err(r.error)
           else ParseMemberSet(p, r.value.dec, depth, Insert(acc, name, r.value.value), closing)
  {
    hide ParseElement, ParseObjBody, ParseMemberSet, NameOf, RefIdOf, Insert;
    MemberStart(p, d, depth, acc, closing, name);
    ObjElement(p, d.(rest := d.rest[1..]), d.rest[0].attrs, depth);
  }

  /** A member set as the only thing left in an object. */
  lemma BodyMembers(p: Policy, d: Dec, depth: nat, names: seq<string>)
    requires d.rest != [] && d.rest[0] == Start("MS", [])
    ensures var m := ParseMemberSet(p, d.(rest := d.rest[1..]), depth, [], "MS");
      ParseObjBody(p, d, depth, names, [], None)
        == if m.Err? then Err(m.error) else ParseObjBody(p, m.value.dec, depth, names, m.value.value, None)
  {
    hide ParseObjBody, ParseMemberSet;
    BodyStart(p, d, depth, Child(names, [], None));
  }

  /** The end of a member set, and of its object. */
  lemma CloseMembers(p: Policy, d: Dec, depth: nat, names: seq<string>, props: seq<Prop>, k: seq<Token>)
    requires d.rest == ([End("MS")] + [End("Obj")]) + k && props != []
    ensures ParseMemberSet(p, d, depth, props, "MS") == Ok(Out(props, d.(rest := [End("Obj")] + k)))
    ensures ParseObjBody(p, d.(rest := [End("Obj")] + k), depth, names, props, None)
         == Ok(Out(Object(names, None, props), d.(rest := k)))
  {
    hide ParseObjBody, ParseMemberSet;
    assert d.rest[1..] == [End("Obj")] + k && ([End("Obj")] + k)[1..] == k;
    MemberEnd(p, d, depth, props, "MS");
    BodyEnd(p, d.(rest := [End("Obj")] + k), depth, Child(names, props, None));
  }

  lemma NumberIsValue(i: int, next: nat)
    ensures Number(i) == EncValue(Int(I32, i), None, next).toks && Nesting(Int(I32, i)) == 1
  {
    hide Simple, ShowInt;
  }

  lemma TailPieces(m: Merge, k: seq<Token>)
    ensures EnumTail(m) + k == DisplayBlock(Some(m.shown)) + (Number(m.i) + ([End("Obj")] + k))
  {
    hide DisplayBlock, Number;
    Regroup(DisplayBlock(Some(m.shown)), Number(m.i) + [End("Obj")], k);
    Regroup(Number(m.i), [End("Obj")], k);
  }

  /** The display text and the number of an enumeration. */
  lemma ReadEnumTail(p: Policy, d: Dec, m: Merge, next: nat, k: seq<Token>, depth: nat, names: seq<string>)
    returns (d2: Dec)
    requires NoRefs(p) && depth < MAX_NESTING_DEPTH && Wf(Int(I32, m.i))
    ensures Resumes(d, d2, k, next)
    ensures ParseObjBody(p, d.(rest := EnumTail(m) + k), depth, names, [], None)
         == Ok(Out(Object(names, None, [Prop(VALUE, Int(I32, m.i))]), d2))
  {
    hide ParseObjBody, DisplayBlock, Number, Resumes, Nesting;
    var end := [End("Obj")] + k;
    assert end[1..] == k;
    TailPieces(m, k);
    NumberIsValue(m.i, next);
    ReadDisplay(p, d, Some(m.shown), Number(m.i) + end, depth, names);
    var d1 := ReadBareElement(p, d, Int(I32, m.i), next, end, depth, names);
    RestOf(d, d1, end, next);
    BodyEnd(p, d1, depth, Child(names, [], Some(Int(I32, m.i))));
    ResumesOn(d, d1, end, k, next);
    d2 := d1.(rest := k);
  }

  lemma EnumNamesOf(m: Merge)
    ensures EnumValue(RESULT_TYPES, m.i) == Object(EnumNames(RESULT_TYPES), None, [Prop(VALUE, Int(I32, m.i))])
    ensures EnumNames(RESULT_TYPES) != []
  {
  }

  /** The first enumeration of the group: its type names are known from now on. */
  lemma ReadEnumFirst(p: Policy, d: Dec, m: Merge, next: nat, k: seq<Token>, depth: nat, acc: seq<Prop>)
    returns (d2: Dec)
    requires NoRefs(p) && depth + 1 < MAX_NESTING_DEPTH && Wf(Int(I32, m.i)) && next < U32_MAX
    ensures Resumes(d, d2, k, next) && Knows(d2, NextId(next), EnumNames(RESULT_TYPES))
    ensures ParseMemberSet(p, d.(rest := EnumFirst(m, next).toks + k), depth, acc, "MS")
         == ParseMemberSet(p, d2, depth, Insert(acc, m.name, EnumValue(RESULT_TYPES, m.i)), "MS")
  {
    hide ParseObjBody, ParseMemberSet, Insert, EnumTail, TypeNameBlock, NameOf, RefIdOf, EnumNames, Resumes, NameAttr,
         IdAttr, ShowNat;
    var block, rest := TypeNameBlock(EnumNames(RESULT_TYPES), NextId(next)), EnumTail(m) + k;
    var open := OpenObj(Some(m.name), next);
    OpenReads(Some(m.name), next);
    EnumNamesOf(m);
    Cons(open, block + EnumTail(m), k);
    Regroup(block, EnumTail(m), k);
    MemberObj(p, d.(rest := EnumFirst(m, next).toks + k), depth, acc, "MS", m.name);
    var d1 := ReadTypeNames(p, d, EnumNames(RESULT_TYPES), NextId(next), next, rest, depth + 1);
    RestOf(d, d1, rest, next);
    d2 := ReadEnumTail(p, d1, m, NextId(next) + 1, k, depth + 1, EnumNames(RESULT_TYPES));
    StillKnows(d1, d2, k, NextId(next) + 1, NextId(next), EnumNames(RESULT_TYPES));
    ResumesEarlier(d1, d2, k, next, NextId(next) + 1);
    ResumesTwice(d, d1, d2, rest, k, next, next);
  }

  lemma OpenReads(name: Option<string>, id: nat)
    ensures NameOf(OpenObj(name, id).attrs) == Ok(name) && RefIdOf(OpenObj(name, id).attrs).Ok?
    ensures name.Some? ==> NameOf(OpenIdFirst(name.value, id).attrs) == Ok(name)
                           && RefIdOf(OpenIdFirst(name.value, id).attrs).Ok?
  {
    hide NameAttr, NameOf, RefIdOf, IdAttr;
    IdIsNoName(name, id);
    ReadId(id, name);
    if name.Some? { IdBeforeName(name.value, id); }
  }

  lemma IdBeforeName(name: string, id: nat)
    ensures NameOf([IdAttr(id)] + NameAttr(Some(name))) == Ok(Some(name))
  {
    hide NameAttr, Escape, Unescape, Escapes.Decode;
    ReadName(Some(name), []);
    assert NameAttr(Some(name)) + [] == NameAttr(Some(name));
    assert ([IdAttr(id)] + NameAttr(Some(name)))[1..] == NameAttr(Some(name));
  }

  lemma BodyShare(p: Policy, d: Dec, depth: nat, id: nat, names: seq<string>)
    requires d.rest != [] && d.rest[0] == Empty("TNRef", [IdAttr(id)]) && Knows(d, id, names)
    ensures ParseObjBody(p, d, depth, [], [], None) == ParseObjBody(p, d.(rest := d.rest[1..]), depth, names, [], None)
  {
    hide ParseChild, ShowNat, RefIdOf;
    ReadId(id, None);
  }

  /** An enumeration that points to the type names of the first. */
  lemma ReadEnumRef(p: Policy, d: Dec, m: Merge, tn: nat, next: nat, k: seq<Token>, depth: nat, acc: seq<Prop>)
    returns (d2: Dec)
    requires NoRefs(p) && depth + 1 < MAX_NESTING_DEPTH && Wf(Int(I32, m.i))
    requires Knows(d, tn, EnumNames(RESULT_TYPES))
    ensures Resumes(d, d2, k, next)
    ensures ParseMemberSet(p, d.(rest := EnumRef(m, tn, next).toks + k), depth, acc, "MS")
         == ParseMemberSet(p, d2, depth, Insert(acc, m.name, EnumValue(RESULT_TYPES, m.i)), "MS")
  {
    hide ParseObjBody, ParseMemberSet, Insert, EnumTail, NameOf, RefIdOf, EnumNames, Resumes, NameAttr, IdAttr;
    var share, rest := Empty("TNRef", [IdAttr(tn)]), EnumTail(m) + k;
    var open := OpenObj(Some(m.name), next);
    OpenReads(Some(m.name), next);
    EnumNamesOf(m);
    Cons(open, [share] + EnumTail(m), k);
    Cons(share, EnumTail(m), k);
    MemberObj(p, d.(rest := EnumRef(m, tn, next).toks + k), depth, acc, "MS", m.name);
    BodyShare(p, d.(rest := ([share] + EnumTail(m)) + k), depth + 1, tn, EnumNames(RESULT_TYPES));
    d2 := ReadEnumTail(p, d, m, next, k, depth + 1, EnumNames(RESULT_TYPES));
  }

  predicate MergesWf(ms: seq<Merge>) {
    forall i :: 0 <= i < |ms| ==> Wf(Int(I32, ms[i].i))
  }

  lemma {:induction false} ReadEnumRefs(p: Policy, d: Dec, ms: seq<Merge>, tn: nat, next: nat, k: seq<Token>, depth: nat,
                                        acc: seq<Prop>)
    returns (d2: Dec)
    requires NoRefs(p) && depth + 1 < MAX_NESTING_DEPTH && MergesWf(ms) && tn < next
    requires Knows(d, tn, EnumNames(RESULT_TYPES)) && NewNames(acc, MergeProps(ms)) && DistinctNames(MergeProps(ms))
    ensures Resumes(d, d2, k, next)
    ensures ParseMemberSet(p, d.(rest := EnumRefs(ms, tn, next).toks + k), depth, acc, "MS")
         == ParseMemberSet(p, d2, depth, acc + MergeProps(ms), "MS")
    decreases ms
  {
    hide ParseMemberSet, Insert, EnumRef, Resumes, Knows, EnumValue, NewNames, DistinctNames, EnumNames;
    d2 := d.(rest := k);
    if ms == [] {
      ResumesNow(d, k, next);
      assert [] + k == k && acc + [] == acc;
    } else {
      var e := EnumRef(ms[0], tn, next);
      assert e.next == NextId(next) by { EnumRefNext(ms[0], tn, next); }
      var more := EnumRefs(ms[1..], tn, e.next).toks;
      var v := EnumValue(RESULT_TYPES, ms[0].i);
      Regroup(e.toks, more, k);
      var d1 := ReadEnumRef(p, d, ms[0], tn, next, more + k, depth, acc);
      TailNames(acc, MergeProps(ms));
      assert MergeProps(ms)[1..] == MergeProps(ms[1..]);
      InsertNew(acc, ms[0].name, v);
      RestOf(d, d1, more + k, next);
      StillKnows(d, d1, more + k, next, tn, EnumNames(RESULT_TYPES));
      d2 := ReadEnumRefs(p, d1, ms[1..], tn, e.next, k, depth, acc + [Prop(ms[0].name, v)]);
      ResumesTwice(d, d1, d2, more + k, k, next, e.next);
      Regroup(acc, [Prop(ms[0].name, v)], MergeProps(ms[1..]));
    }
  }

  lemma EnumRefNext(m: Merge, tn: nat, next: nat)
    ensures EnumRef(m, tn, next).next == NextId(next)
  {
  }

  predicate Shares(d: Dec, tn: Option<nat>, next: nat) {
    tn.Some? ==> tn.value < next && Knows(d, tn.value, EnumNames(RESULT_TYPES))
  }

  /** The first three merge fields of a command. */
  lemma ReadMerges(p: Policy, d: Dec, ms: seq<Merge>, tn: Option<nat>, next: nat, k: seq<Token>, depth: nat, acc: seq<Prop>)
    returns (d2: Dec)
    requires NoRefs(p) && depth + 1 < MAX_NESTING_DEPTH && MergesWf(ms) && ms != [] && Shares(d, tn, next)
    requires Merges(ms, tn, next).next < U32_MAX
    requires NewNames(acc, MergeProps(ms)) && DistinctNames(MergeProps(ms))
    ensures Resumes(d, d2, k, next)
    ensures Knows(d2, SharedId(tn, next), EnumNames(RESULT_TYPES)) && SharedId(tn, next) < Merges(ms, tn, next).next
    ensures ParseMemberSet(p, d.(rest := Merges(ms, tn, next).toks + k), depth, acc, "MS")
         == ParseMemberSet(p, d2, depth, acc + MergeProps(ms), "MS")
  {
    hide ParseMemberSet, Insert, EnumRefs, Resumes, Knows, EnumValue, NewNames, DistinctNames, EnumNames;
    if tn.Some? {
      d2 := ReadEnumRefs(p, d, ms, tn.value, next, k, depth, acc);
      StillKnows(d, d2, k, next, tn.value, EnumNames(RESULT_TYPES));
    } else {
      var e := EnumFirst(ms[0], next);
      var more := EnumRefs(ms[1..], NextId(next), e.next).toks;
      var v := EnumValue(RESULT_TYPES, ms[0].i);
      Regroup(e.toks, more, k);
      var d1 := ReadEnumFirst(p, d, ms[0], next, more + k, depth, acc);
      TailNames(acc, MergeProps(ms));
      assert MergeProps(ms)[1..] == MergeProps(ms[1..]);
      InsertNew(acc, ms[0].name, v);
      RestOf(d, d1, more + k, next);
      d2 := ReadEnumRefs(p, d1, ms[1..], NextId(next), e.next, k, depth, acc + [Prop(ms[0].name, v)]);
      StillKnows(d1, d2, k, e.next, NextId(next), EnumNames(RESULT_TYPES));
      ResumesTwice(d, d1, d2, more + k, k, next, e.next);
      Regroup(acc, [Prop(ms[0].name, v)], MergeProps(ms[1..]));
    }
  }

  // ---- Arguments ----

  lemma ArgPieces(args: seq<Arg>, listId: nat, next: nat, k: seq<Token>)
    ensures var items := EncItems(ArgValues(args), NextId(next)).toks;
      var share := Empty("TNRef", [IdAttr(listId)]);
      && ArgsObj(args, listId, next).toks + k != []
      && (ArgsObj(args, listId, next).toks + k)[0] == OpenIdFirst("Args", next)
      && (ArgsObj(args, listId, next).toks + k)[1..]
         == [share] + (EncBare(List(ArgValues(args)), NextId(next)).toks + ([End("Obj")] + k))
  {
    hide EncItems, ArgValues, Wrapped, OpenIdFirst, IdAttr;
    var share := [Empty("TNRef", [IdAttr(listId)])];
    var body := EncBare(List(ArgValues(args)), NextId(next)).toks;
    Cons(OpenIdFirst("Args", next), share + (body + [End("Obj")]), k);
    Regroup(share, body + [End("Obj")], k);
    Regroup(body, [End("Obj")], k);
  }

  lemma ArgsWf(args: seq<Arg>)
    requires forall i :: 0 <= i < |args| ==> Wf(ArgContent(args[i]))
    ensures Wf(List(ArgValues(args)))
  {
    hide Wf, ArgValue, ArgContent, ArgValues;
    forall i | 0 <= i < |args| ensures Wf(ArgValue(args[i])) {
      OneArgWf(args[i]);
    }
    WfList(ArgValues(args));
  }

  lemma WfList(items: seq<Value>)
    requires forall i :: 0 <= i < |items| ==> Wf(items[i])
    ensures Wf(List(items))
  {
  }

  lemma OneArgWf(a: Arg)
    requires Wf(ArgContent(a))
    ensures Wf(ArgValue(a))
  {
    hide ArgContent, Wf;
    var name := if a.Positional? then "" else a.name;
    assert Wf(Null) && Wf(Textual(Str, name)) by { FlatWf(name); }
    WfOfObject(ArgValue(a));
  }

  lemma FlatWf(s: string)
    ensures Wf(Null) && Wf(Textual(Str, s))
  {
  }

  /** The argument list of a command. */
  lemma ReadArgs(p: Policy, d: Dec, args: seq<Arg>, listId: nat, next: nat, k: seq<Token>, depth: nat, acc: seq<Prop>)
    returns (d2: Dec)
    requires NoRefs(p) && depth < MAX_NESTING_DEPTH && Knows(d, listId, COMMAND_LIST)
    requires forall i :: 0 <= i < |args| ==> Wf(ArgContent(args[i]))
    ensures var r := ParseMemberSet(p, d.(rest := ArgsObj(args, listId, next).toks + k), depth, acc, "MS");
      if depth + 1 + ItemsNesting(ArgValues(args)) <= MAX_NESTING_DEPTH
      then Resumes(d, d2, k, next)
           && r == ParseMemberSet(p, d2, depth, Insert(acc, "Args", ListObject(NormItems(ArgValues(args)))), "MS")
      else r == Err(TooDeep)
  {
    hide ParseObjBody, ParseMemberSet, Insert, NameOf, RefIdOf, Resumes, NameAttr, IdAttr, ArgsObj, EncBare, ArgValues,
         ItemsNesting, NormItems, Knows, Wf, ArgContent;
    var v := List(ArgValues(args));
    var end := [End("Obj")] + k;
    assert end[1..] == k;
    var at := d.(rest := ArgsObj(args, listId, next).toks + k);
    var body := EncBare(v, NextId(next)).toks + end;
    ArgPieces(args, listId, next, k);
    OpenReads(Some("Args"), next);
    MemberObj(p, at, depth, acc, "MS", "Args");
    var share := Empty("TNRef", [IdAttr(listId)]);
    assert ([share] + body)[1..] == body;
    KnowsAt(d, [share] + body, listId, COMMAND_LIST);
    BodyShare(p, d.(rest := [share] + body), depth + 1, listId, COMMAND_LIST);
    ArgsWf(args);
    var d1 := ReadContainer(p, d, v, NextId(next), end, depth + 1, COMMAND_LIST);
    BareNestingOfList(v.items);
    d2 := d1.(rest := k);
    if depth + 1 + ItemsNesting(ArgValues(args)) <= MAX_NESTING_DEPTH {
      RestOf(d, d1, end, NextId(next));
      BodyEnd(p, d1, depth + 1, Child(COMMAND_LIST, [], Some(NormBare(v))));
      ResumesOn(d, d1, end, k, NextId(next));
      ResumesEarlier(d, d2, k, next, NextId(next));
    }
  }

  lemma KnowsAt(d: Dec, rest: seq<Token>, id: nat, names: seq<string>)
    requires Knows(d, id, names)
    ensures Knows(d.(rest := rest), id, names)
  {
  }

  lemma BareNestingOfList(items: seq<Value>)
    ensures BareNesting(List(items)) == ItemsNesting(items) && NormBare(List(items)) == List(NormItems(items))
  {
    hide ItemsNesting, NormItems;
  }

  // ---- Commands ----

  lemma MemberSetPieces(open: Token, inner: seq<Token>, k: seq<Token>)
    ensures var toks := ([open] + MemberSet(inner)) + k;
      && toks != [] && toks[0] == open
      && toks[1..] == [Start("MS", [])] + (inner + (([End("MS")] + [End("Obj")]) + k))
  {
    Cons(open, MemberSet(inner), k);
    var ends := [End("MS")] + [End("Obj")];
    Regroup([Start("MS", [])], inner + ends, k);
    Regroup(inner, ends, k);
  }

  lemma Four<T>(a: seq<T>, b: seq<T>, c: seq<T>, e: seq<T>, k: seq<T>)
    ensures (a + (b + (c + e))) + k == a + (b + (c + (e + k)))
  {
  }

  lemma Three<T>(a: seq<T>, b: seq<T>, c: seq<T>, k: seq<T>)
    ensures (a + (b + c)) + k == a + (b + (c + k))
  {
  }

  lemma PropsNestingStep(props: seq<Prop>, i: nat)
    requires i < |props| && props[i].name != VALUE
    ensures PropsNesting(props[i..]) == Max(Nesting(props[i].value), PropsNesting(props[i + 1..]))
  {
    hide Nesting;
    assert props[i..][1..] == props[i + 1..];
  }

  lemma NothingNests()
    ensures PropsNesting([]) == 0
  {
  }

  /** The leaves of a command's head: how deep they nest, and that they take no id. */
  lemma LeafIsFlat(v: Value, name: Option<string>, next: nat)
    requires v.Null? || v.Bool? || v.Textual?
    ensures Wf(v) && Nesting(v) == (if v.Null? then 0 else 1) && EncValue(v, name, next).next == next
  {
    hide Simple, Escape;
  }

  lemma CommandHeadIsFlat(c: Command, next: nat)
    ensures EncProps(CommandHead(c), next).next == next && PropsNesting(CommandHead(c)) == 1
    ensures DistinctNames(CommandHead(c)) && forall i :: 0 <= i < |CommandHead(c)| ==> Wf(CommandHead(c)[i].value)
  {
    hide EncValue, EncProps, PropsNesting, Nesting, Wf;
    var ps := CommandHead(c);
    assert |VALUE| == 6 && |ps[0].name| == 3 && |ps[1].name| == 8 && |ps[2].name| == 13;
    forall i | 0 <= i < 3
      ensures Wf(ps[i].value) && Nesting(ps[i].value) == (if ps[i].value.Null? then 0 else 1)
      ensures EncValue(ps[i].value, Some(ps[i].name), next).next == next
    {
      LeafIsFlat(ps[i].value, Some(ps[i].name), next);
    }
    PropsStep(ps, 0, next);
    PropsStep(ps, 1, next);
    PropsStep(ps, 2, next);
    PropsStep(ps, 3, next);
    PropsNestingStep(ps, 0);
    PropsNestingStep(ps, 1);
    PropsNestingStep(ps, 2);
    NothingNests();
    assert ps[0..] == ps && ps[3..] == [];
  }

  predicate CommandReads(c: Command) {
    5 + ItemsNesting(ArgValues(c.args)) <= MAX_NESTING_DEPTH
  }

  lemma MergesAreWf(c: Command)
    ensures MergesWf(MergeFields(c)) && MergesWf(LaterMerges())
  {
  }

  /** The members of a command, and what follows them. */
  function CommandInner(c: Command, tn: Option<nat>, listId: nat, next: nat, k: seq<Token>): seq<Token> {
    var head := EncProps(CommandHead(c), NextId(next));
    var merges := Merges(MergeFields(c), tn, head.next);
    var args := ArgsObj(c.args, listId, merges.next);
    var later := EnumRefs(LaterMerges(), SharedId(tn, head.next), args.next);
    head.toks + (merges.toks + (args.toks + (later.toks + k)))
  }

  /** The members of a command, up to the end of its member set. */
  lemma ReadCommandMembers(p: Policy, d: Dec, c: Command, tn: Option<nat>, listId: nat, next: nat, k: seq<Token>)
    returns (d2: Dec)
    requires NoRefs(p) && CommandWf(c) && Shares(d, tn, next) && Knows(d, listId, COMMAND_LIST) && listId < next
    requires EncCommand(c, tn, listId, next).next < U32_MAX
    ensures var r := ParseMemberSet(p, d.(rest := CommandInner(c, tn, listId, next, k)), 4, [], "MS");
      if CommandReads(c)
      then Resumes(d, d2, k, next) && r == ParseMemberSet(p, d2, 4, CommandProps(c), "MS")
           && Shares(d2, Some(NextShared(c, tn, next)), EncCommand(c, tn, listId, next).next)
           && Knows(d2, listId, COMMAND_LIST)
      else r == Err(TooDeep)
  {
    hide ParseMemberSet, Insert, EncProps, Merges, ArgsObj, EnumRefs, Resumes, Knows, NewNames, DistinctNames, NormProps,
         NormItems, ItemsNesting, PropsNesting, CommandHead, MergeProps, EnumNames, ArgValues, ListObject, Wf, MergesWf,
         MergeFields, LaterMerges;
    var n := NextId(next);
    var head := EncProps(CommandHead(c), n);
    var merges := Merges(MergeFields(c), tn, head.next);
    var args := ArgsObj(c.args, listId, merges.next);
    var shared := SharedId(tn, head.next);
    var later := EnumRefs(LaterMerges(), shared, args.next);
    var arg := [Prop("Args", ListObject(NormItems(ArgValues(c.args))))];
    var P0, P1, P3 := NormProps(CommandHead(c)), MergeProps(MergeFields(c)), MergeProps(LaterMerges());
    CommandHeadIsFlat(c, n);
    MergesAreWf(c);
    CommandStages(c, P0, P1, arg, P3);
    var k1, k2, k3 := merges.toks + (args.toks + (later.toks + k)), args.toks + (later.toks + k), later.toks + k;
    NewAfterNothing(CommandHead(c));
    var d0 := ReadProps(p, d, CommandHead(c), n, k1, 4, [], "MS");
    assert [] + P0 == P0;
    RestOf(d, d0, k1, n);
    ResumesEarlier(d, d0, k1, next, n);
    SharesLater(d, d0, k1, tn, next, head.next);
    var d1 := ReadMerges(p, d0, MergeFields(c), tn, head.next, k2, 4, P0);
    RestOf(d0, d1, k2, head.next);
    ResumesTwice(d, d0, d1, k1, k2, next, head.next);
    StillKnows(d, d1, k2, next, listId, COMMAND_LIST);
    d2 := ReadArgs(p, d1, c.args, listId, merges.next, k3, 4, P0 + P1);
    if CommandReads(c) {
      RestOf(d1, d2, k3, merges.next);
      InsertNew(P0 + P1, "Args", arg[0].value);
      StillKnows(d1, d2, k3, merges.next, shared, EnumNames(RESULT_TYPES));
      ResumesTwice(d, d1, d2, k2, k3, next, merges.next);
      var d3 := ReadEnumRefs(p, d2, LaterMerges(), shared, args.next, k, 4, (P0 + P1) + arg);
      StillKnows(d2, d3, k, args.next, shared, EnumNames(RESULT_TYPES));
      ResumesTwice(d, d2, d3, k3, k, next, args.next);
      StillKnows(d, d3, k, next, listId, COMMAND_LIST);
      SharedOf(c, tn, next, shared);
      d2 := d3;
    }
  }

  lemma SharedOf(c: Command, tn: Option<nat>, next: nat, shared: nat)
    requires shared == SharedId(tn, EncProps(CommandHead(c), NextId(next)).next)
    ensures NextShared(c, tn, next) == shared
  {
    hide EncProps, CommandHead;
  }

  lemma NewAfterNothing(props: seq<Prop>)
    ensures NewNames([], props)
  {
  }

  lemma SharesLater(a: Dec, b: Dec, tail: seq<Token>, tn: Option<nat>, next: nat, later: nat)
    requires Resumes(a, b, tail, next) && Shares(a, tn, next) && next <= later
    ensures Shares(b, tn, later)
  {
    hide Knows, Resumes, EnumNames;
    if tn.Some? { StillKnows(a, b, tail, next, tn.value, EnumNames(RESULT_TYPES)); }
  }

  /** The names met so far never clash with the ones to come. */
  lemma CommandStages(c: Command, a: seq<Prop>, b: seq<Prop>, x: seq<Prop>, e: seq<Prop>)
    requires a == NormProps(CommandHead(c)) && b == MergeProps(MergeFields(c)) && e == MergeProps(LaterMerges())
    requires x == [Prop("Args", ListObject(NormItems(ArgValues(c.args))))]
    ensures NewNames(a, b) && DistinctNames(b) && DistinctNames(e) && NewNames((a + b) + x, e)
    ensures forall i :: 0 <= i < |a + b| ==> (a + b)[i].name != "Args"
    ensures ((a + b) + x) + e == CommandProps(c)
  {
    hide NormProps, CommandHead, MergeProps, MergeFields, LaterMerges, ListObject, NormItems, ArgValues;
    CommandPropsNames(c);
    Regroup(a, b, x + e);
    Regroup(a + b, x, e);
    DistinctParts(a, b + (x + e));
    DistinctParts(b, x + e);
    DistinctParts(a + b, x + e);
    DistinctParts((a + b) + x, e);
    NewPart(a, b, x + e);
    NewPart(a + b, x, e);
    assert x[0].name == "Args";
  }

  lemma NewPart(a: seq<Prop>, b: seq<Prop>, c: seq<Prop>)
    requires NewNames(a, b + c)
    ensures NewNames(a, b)
  {
    forall i, j | 0 <= i < |a| && 0 <= j < |b| ensures a[i].name != b[j].name {
      assert (b + c)[j] == b[j];
    }
  }

  lemma ListObj(p: Policy, d: Dec, depth: nat, items: seq<Value>, closing: string)
    requires NoRefs(p) && depth < MAX_NESTING_DEPTH && d.rest != [] && d.rest[0].Start? && d.rest[0].tag == "Obj"
    requires RefIdOf(d.rest[0].attrs).Ok?
    ensures var r := ParseObjBody(p, d.(rest := d.rest[1..]), depth + 1, [], [], None);
      ParseList(p, d, depth, items, closing)
        == if r.Err? then Err(r.error) else ParseList(p, r.value.dec, depth, items + [r.value.value], closing)
  {
    hide ParseElement, ParseObjBody, ParseList, RefIdOf;
    ListStart(p, d, depth, items, closing);
    ObjElement(p, d.(rest := d.rest[1..]), d.rest[0].attrs, depth);
  }

  /** One command, an item of the command list. */
  lemma ReadCommand(p: Policy, d: Dec, c: Command, tn: Option<nat>, listId: nat, next: nat, k: seq<Token>,
                    acc: seq<Value>)
    returns (d2: Dec)
    requires NoRefs(p) && CommandWf(c) && Shares(d, tn, next) && Knows(d, listId, COMMAND_LIST) && listId < next
    requires EncCommand(c, tn, listId, next).next < U32_MAX
    ensures var e := EncCommand(c, tn, listId, next);
      var r := ParseList(p, d.(rest := e.toks + k), 3, acc, "LST");
      if CommandReads(c)
      then Resumes(d, d2, k, next) && r == ParseList(p, d2, 3, acc + [CommandValue(c)], "LST")
           && Shares(d2, Some(NextShared(c, tn, next)), e.next) && Knows(d2, listId, COMMAND_LIST)
      else r == Err(TooDeep)
  {
    hide ParseMemberSet, ParseObjBody, ParseList, EncProps, Merges, ArgsObj, EnumRefs, Resumes, Knows, CommandHead,
         CommandProps, CommandReads, MemberSet, OpenObj, RefIdOf, NameOf, Shares, NextShared, CommandWf, SharedId;
    var head := EncProps(CommandHead(c), NextId(next));
    var merges := Merges(MergeFields(c), tn, head.next);
    var args := ArgsObj(c.args, listId, merges.next);
    var later := EnumRefs(LaterMerges(), SharedId(tn, head.next), args.next);
    var inner := head.toks + (merges.toks + (args.toks + later.toks));
    var ends := ([End("MS")] + [End("Obj")]) + k;
    var open := OpenObj(None, next);
    OpenReads(None, next);
    IsObj(None, next);
    MemberSetPieces(open, inner, k);
    Four(head.toks, merges.toks, args.toks, later.toks, ends);
    ListObj(p, d.(rest := EncCommand(c, tn, listId, next).toks + k), 3, acc, "LST");
    var ms := [Start("MS", [])] + (inner + ends);
    assert ms[1..] == inner + ends;
    BodyMembers(p, d.(rest := ms), 4, []);
    var d1 := ReadCommandMembers(p, d, c, tn, listId, next, ends);
    d2 := d1.(rest := k);
    if CommandReads(c) {
      RestOf2(d, d1, ends, next);
      CommandPropsNames(c);
      CloseMembers(p, d1, 4, [], CommandProps(c), k);
      ResumesOn(d, d1, ends, k, next);
      KnowsAt(d1, k, listId, COMMAND_LIST);
      SharesAt(d1, k, Some(NextShared(c, tn, next)), later.next);
      CommandValueOf(c);
    }
  }

  lemma CommandValueOf(c: Command)
    ensures CommandValue(c) == Object([], None, CommandProps(c))
  {
  }

  lemma IsObj(name: Option<string>, id: nat)
    ensures OpenObj(name, id).Start? && OpenObj(name, id).tag == "Obj"
  {
  }

  lemma RestOf2(d: Dec, d2: Dec, rest: seq<Token>, next: nat)
    requires Resumes(d, d2, rest, next)
    ensures d2.rest == rest
  {
    hide Keeps;
  }

  lemma SharesAt(d: Dec, rest: seq<Token>, tn: Option<nat>, next: nat)
    requires Shares(d, tn, next)
    ensures Shares(d.(rest := rest), tn, next)
  {
    hide EnumNames;
  }

  predicate AllRead(cs: seq<Command>) {
    forall i :: 0 <= i < |cs| ==> CommandReads(cs[i])
  }

  lemma {:induction false} ReadCommands(p: Policy, d: Dec, cs: seq<Command>, tn: Option<nat>, listId: nat, next: nat,
                                        k: seq<Token>, acc: seq<Value>)
    returns (d2: Dec)
    requires NoRefs(p) && (forall i :: 0 <= i < |cs| ==> CommandWf(cs[i]))
    requires Shares(d, tn, next) && Knows(d, listId, COMMAND_LIST) && listId < next
    requires EncCommands(cs, tn, listId, next).next < U32_MAX
    ensures var r := ParseList(p, d.(rest := EncCommands(cs, tn, listId, next).toks + k), 3, acc, "LST");
      if AllRead(cs)
      then Resumes(d, d2, k, next) && r == ParseList(p, d2, 3, acc + CommandValues(cs), "LST")
      else r == Err(TooDeep)
    decreases cs
  {
    hide ParseList, EncCommand, Resumes, Knows, CommandValue, CommandReads, Shares, NextShared, CommandWf;
    d2 := d.(rest := k);
    if cs == [] {
      ResumesNow(d, k, next);
      assert [] + k == k && acc + [] == acc;
    } else {
      var e := EncCommand(cs[0], tn, listId, next);
      var shared := Some(NextShared(cs[0], tn, next));
      var more := EncCommands(cs[1..], shared, listId, e.next).toks;
      Regroup(e.toks, more, k);
      var d1 := ReadCommand(p, d, cs[0], tn, listId, next, more + k, acc);
      if CommandReads(cs[0]) {
        RestOf(d, d1, more + k, next);
        d2 := ReadCommands(p, d1, cs[1..], shared, listId, e.next, k, acc + [CommandValue(cs[0])]);
        Regroup(acc, [CommandValue(cs[0])], CommandValues(cs[1..]));
        assert AllRead(cs) <==> AllRead(cs[1..]) by { AllReadStep(cs); }
        if AllRead(cs) { ResumesTwice(d, d1, d2, more + k, k, next, e.next); }
      }
    }
  }

  lemma AllReadStep(cs: seq<Command>)
    requires cs != [] && CommandReads(cs[0])
    ensures AllRead(cs) <==> AllRead(cs[1..])
  {
    hide CommandReads;
    if AllRead(cs[1..]) {
      forall i | 0 <= i < |cs| ensures CommandReads(cs[i]) {
        assert i > 0 ==> cs[1..][i - 1] == cs[i];
      }
    }
  }

  // ---- The whole document ----

  lemma CmdsPieces(cs: seq<Command>, next: nat, k: seq<Token>)
    ensures var items := EncCommands(cs, None, next, NextId(NextId(next))).toks;
      var toks := CmdsObj(cs, next).toks + k;
      && toks != [] && toks[0] == OpenIdFirst("Cmds", NextId(next))
      && toks[1..] == TypeNameBlock(COMMAND_LIST, next)
                      + ([Start("LST", [])] + (items + ([End("LST")] + ([End("Obj")] + k))))
  {
    hide EncCommands, TypeNameBlock, OpenIdFirst;
    var items := EncCommands(cs, None, next, NextId(NextId(next))).toks;
    var block := TypeNameBlock(COMMAND_LIST, next);
    Cons(OpenIdFirst("Cmds", NextId(next)), block + (Wrapped("LST", items) + [End("Obj")]), k);
    Regroup(block, Wrapped("LST", items) + [End("Obj")], k);
    Regroup(Wrapped("LST", items), [End("Obj")], k);
    Unwrap(Start("LST", []), items, End("LST"), [End("Obj")] + k);
  }

  lemma BodyList(p: Policy, d: Dec, depth: nat, names: seq<string>)
    requires d.rest != [] && d.rest[0] == Start("LST", [])
    ensures var l := ParseList(p, d.(rest := d.rest[1..]), depth, [], "LST");
      ParseObjBody(p, d, depth, names, [], None)
        == if l.Err? then Err(l.error) else ParseObjBody(p, l.value.dec, depth, names, [], Some(List(l.value.value)))
  {
    hide ParseObjBody, ParseList;
    BodyStart(p, d, depth, Child(names, [], None));
  }

  /** The command list, a member of the PowerShell object. */
  lemma ReadCmds(p: Policy, d: Dec, cs: seq<Command>, next: nat, k: seq<Token>, acc: seq<Prop>) returns (d2: Dec)
    requires NoRefs(p) && (forall i :: 0 <= i < |cs| ==> CommandWf(cs[i])) && CmdsObj(cs, next).next < U32_MAX
    ensures var r := ParseMemberSet(p, d.(rest := CmdsObj(cs, next).toks + k), 2, acc, "MS");
      if AllRead(cs)
      then Resumes(d, d2, k, next)
           && r == ParseMemberSet(p, d2, 2, Insert(acc, "Cmds", ListObject(CommandValues(cs))), "MS")
      else r == Err(TooDeep)
  {
    hide ParseObjBody, ParseMemberSet, ParseList, Insert, NameOf, RefIdOf, Resumes, EncCommands, TypeNameBlock, AllRead,
         OpenIdFirst, CommandValues, CommandWf, ShowNat, Finish;
    var n := NextId(NextId(next));
    var items := EncCommands(cs, None, next, n).toks;
    var end := [End("Obj")] + k;
    var k1 := [End("LST")] + end;
    var k0 := [Start("LST", [])] + (items + k1);
    assert end[1..] == k && k1[1..] == end && k0[1..] == items + k1;
    var at := d.(rest := CmdsObj(cs, next).toks + k);
    CmdsPieces(cs, next, k);
    OpenReads(Some("Cmds"), NextId(next));
    IsObjToo("Cmds", NextId(next));
    MemberObj(p, at, 2, acc, "MS", "Cmds");
    var d0 := ReadTypeNames(p, d, COMMAND_LIST, next, next, k0, 3);
    RestOf2(d, d0, k0, next);
    BodyList(p, d0, 3, COMMAND_LIST);
    NoShare(d0, n);
    assert Knows(d0, next, COMMAND_LIST);
    var d1 := ReadCommands(p, d0, cs, None, next, n, k1, []);
    assert d0.(rest := items + k1) == d0.(rest := d0.rest[1..]);
    d2 := d1.(rest := k);
    if AllRead(cs) {
      assert [] + CommandValues(cs) == CommandValues(cs);
      RestOf2(d0, d1, k1, n);
      ListEnd(p, d1, 3, CommandValues(cs), "LST");
      BodyEnd(p, d1.(rest := end), 3, Child(COMMAND_LIST, [], Some(List(CommandValues(cs)))));
      FinishedList(CommandValues(cs));
      ResumesOn(d0, d1, k1, k, n);
      ResumesEarlier(d0, d2, k, next, n);
      ResumesTwice(d, d0, d2, k0, k, next, next);
    }
  }

  lemma FinishedList(items: seq<Value>)
    ensures Finish(COMMAND_LIST, [], Some(List(items))) == ListObject(items)
  {
  }

  lemma NoShare(d: Dec, next: nat)
    ensures Shares(d, None, next)
  {
  }

  lemma IsObjToo(name: string, id: nat)
    ensures OpenIdFirst(name, id).Start? && OpenIdFirst(name, id).tag == "Obj"
  {
  }

  /** Two members that hold no object. */
  lemma PairIsFlat(ps: seq<Prop>, next: nat)
    requires |ps| == 2 && ps[0].name != VALUE && ps[1].name != VALUE
    requires forall i :: 0 <= i < 2 ==> ps[i].value.Null? || ps[i].value.Bool?
    ensures EncProps(ps, next).next == next && PropsNesting(ps) <= 1 && Wf(ps[0].value) && Wf(ps[1].value)
  {
    hide Simple;
    PropsStep(ps, 0, next);
    PropsStep(ps, 1, next);
    PropsStep(ps, 2, next);
    assert ps[0..] == ps && ps[1..][1..] == ps[2..];
    NormPropsStep(ps);
    NormPropsStep(ps[1..]);
    NormPropsStep(ps[2..]);
  }

  lemma PowerShellIsFlat(next: nat)
    ensures EncProps(PowerShellHead(), next).next == next && EncProps(PowerShellRest(), next).next == next
    ensures PropsNesting(PowerShellHead()) <= 1 && PropsNesting(PowerShellRest()) <= 1
    ensures forall i :: 0 <= i < |PowerShellHead()| ==> Wf(PowerShellHead()[i].value)
    ensures forall i :: 0 <= i < |PowerShellRest()| ==> Wf(PowerShellRest()[i].value)
    ensures HasNames(PowerShellHead(), POWER_NAMES[..2]) && HasNames(PowerShellRest(), POWER_NAMES[3..])
  {
    hide EncProps, PropsNesting, Wf;
    var a, b := PowerShellHead(), PowerShellRest();
    assert |VALUE| == 6 && |a[0].name| == 8 && |a[1].name| == 9 && |b[0].name| == 7 && |b[1].name| == 28;
    PairIsFlat(a, next);
    PairIsFlat(b, next);
  }

  /** The members of the PowerShell object, and what follows them. */
  function PowerShellInner(cs: seq<Command>, next: nat, k: seq<Token>): seq<Token> {
    var head := EncProps(PowerShellHead(), NextId(next));
    var cmds := CmdsObj(cs, head.next);
    var last := EncProps(PowerShellRest(), cmds.next);
    head.toks + (cmds.toks + (last.toks + k))
  }

  /** The members in `toks` read as `props`, before `k`, or nest too deep. */
  ghost predicate MembersRead(p: Policy, d: Dec, d2: Dec, toks: seq<Token>, k: seq<Token>, next: nat, depth: nat,
                              props: seq<Prop>, fits: bool)
  {
    var r := ParseMemberSet(p, d.(rest := toks), depth, [], "MS");
    if fits then Resumes(d, d2, k, next) && r == ParseMemberSet(p, d2, depth, props, "MS") else r == Err(TooDeep)
  }

  /** The members of the PowerShell object. */
  lemma ReadPowerShellMembers(p: Policy, d: Dec, cs: seq<Command>, next: nat, k: seq<Token>) returns (d2: Dec)
    requires NoRefs(p) && (forall i :: 0 <= i < |cs| ==> CommandWf(cs[i])) && PowerShellObj(cs, next).next < U32_MAX
    ensures MembersRead(p, d, d2, PowerShellInner(cs, next, k), k, next, 2, PowerShellProps(cs), AllRead(cs))
  {
    hide ParseMemberSet, Insert, Resumes, AllRead, CommandValues, CommandWf, CmdsObj, EncProps, PowerShellHead,
         PowerShellRest, NormProps, PropsNesting, NewNames, DistinctNames, ListObject, Wf, HasNames, PowerShellProps;
    var n := NextId(next);
    var head := EncProps(PowerShellHead(), n);
    var cmds := CmdsObj(cs, head.next);
    var last := EncProps(PowerShellRest(), cmds.next);
    var H, C, L := NormProps(PowerShellHead()), [Prop("Cmds", ListObject(CommandValues(cs)))], NormProps(PowerShellRest());
    PowerShellIsFlat(n);
    PowerShellIsFlat(cmds.next);
    PowerShellStages(cs, H, C, L);
    var k1, k2 := cmds.toks + (last.toks + k), last.toks + k;
    var d0 := ReadProps(p, d, PowerShellHead(), n, k1, 2, [], "MS");
    assert [] + H == H;
    RestOf(d, d0, k1, n);
    var d1 := ReadCmds(p, d0, cs, head.next, k2, H);
    d2 := d1;
    if AllRead(cs) {
      InsertNew(H, "Cmds", C[0].value);
      RestOf(d0, d1, k2, head.next);
      ResumesTwice(d, d0, d1, k1, k2, n, head.next);
      d2 := ReadProps(p, d1, PowerShellRest(), cmds.next, k, 2, H + C, "MS");
      ResumesTwice(d, d1, d2, k2, k, n, cmds.next);
      ResumesEarlier(d, d2, k, next, n);
    }
  }

  /** The PowerShell object, a member of the root. */
  lemma ReadPowerShell(p: Policy, d: Dec, cs: seq<Command>, next: nat, k: seq<Token>, acc: seq<Prop>) returns (d2: Dec)
    requires NoRefs(p) && (forall i :: 0 <= i < |cs| ==> CommandWf(cs[i])) && PowerShellObj(cs, next).next < U32_MAX
    ensures var r := ParseMemberSet(p, d.(rest := PowerShellObj(cs, next).toks + k), 1, acc, "MS");
      if AllRead(cs)
      then Resumes(d, d2, k, next)
           && r == ParseMemberSet(p, d2, 1, Insert(acc, "PowerShell", Object([], None, PowerShellProps(cs))), "MS")
      else r == Err(TooDeep)
  {
    hide ParseObjBody, ParseMemberSet, Insert, NameOf, RefIdOf, Resumes, AllRead, OpenObj, CommandWf, CmdsObj, EncProps,
         PowerShellHead, PowerShellRest, MemberSet, PowerShellProps, NextId, OpenIdFirst;
    var head := EncProps(PowerShellHead(), NextId(next));
    var cmds := CmdsObj(cs, head.next);
    var last := EncProps(PowerShellRest(), cmds.next);
    var inner := head.toks + (cmds.toks + last.toks);
    var ends := ([End("MS")] + [End("Obj")]) + k;
    OpenReads(Some("PowerShell"), next);
    IsObj(Some("PowerShell"), next);
    MemberSetPieces(OpenObj(Some("PowerShell"), next), inner, k);
    Three(head.toks, cmds.toks, last.toks, ends);
    MemberObj(p, d.(rest := PowerShellObj(cs, next).toks + k), 1, acc, "MS", "PowerShell");
    var d1 := ReadPowerShellMembers(p, d, cs, next, ends);
    d2 := d1.(rest := k);
    PowerShellIsSome(cs);
    if AllRead(cs) {
      RestOf2(d, d1, ends, next);
      ResumesOn(d, d1, ends, k, next);
      MembersOnly(p, d, inner + ends, 2, Ok(Out(PowerShellProps(cs), d1)), PowerShellProps(cs), k);
    } else {
      MembersFail(p, d, inner + ends, 2);
    }
  }

  /** An object that is nothing but a member set. */
  lemma MembersOnly(p: Policy, d: Dec, ms: seq<Token>, depth: nat, m: Result<Out<seq<Prop>>, Fault>, props: seq<Prop>,
                    k: seq<Token>)
    requires m.Ok? && m.value.value == props && props != []
    requires m.value.dec.rest == ([End("MS")] + [End("Obj")]) + k
    requires ParseMemberSet(p, d.(rest := ms), depth, [], "MS") == ParseMemberSet(p, m.value.dec, depth, props, "MS")
    ensures ParseObjBody(p, d.(rest := [Start("MS", [])] + ms), depth, [], [], None)
         == Ok(Out(Object([], None, props), m.value.dec.(rest := k)))
  {
    hide ParseObjBody, ParseMemberSet;
    assert ([Start("MS", [])] + ms)[1..] == ms;
    BodyMembers(p, d.(rest := [Start("MS", [])] + ms), depth, []);
    CloseMembers(p, m.value.dec, depth, [], props, k);
  }

  lemma MembersFail(p: Policy, d: Dec, ms: seq<Token>, depth: nat)
    requires ParseMemberSet(p, d.(rest := ms), depth, [], "MS") == Err(TooDeep)
    ensures ParseObjBody(p, d.(rest := [Start("MS", [])] + ms), depth, [], [], None) == Err(TooDeep)
  {
    hide ParseObjBody, ParseMemberSet;
    assert ([Start("MS", [])] + ms)[1..] == ms;
    BodyMembers(p, d.(rest := [Start("MS", [])] + ms), depth, []);
  }

  lemma PowerShellIsSome(cs: seq<Command>)
    ensures PowerShellProps(cs) != []
  {
    hide NormProps, ListObject, CommandValues;
  }

  lemma PowerShellStages(cs: seq<Command>, h: seq<Prop>, c: seq<Prop>, l: seq<Prop>)
    requires h == NormProps(PowerShellHead()) && l == NormProps(PowerShellRest())
    requires c == [Prop("Cmds", ListObject(CommandValues(cs)))]
    ensures NewNames([], PowerShellHead()) && DistinctNames(PowerShellHead()) && DistinctNames(PowerShellRest())
    ensures forall i :: 0 <= i < |h| ==> h[i].name != "Cmds"
    ensures NewNames(h + c, PowerShellRest()) && (h + c) + l == PowerShellProps(cs)
  {
    hide NormProps, ListObject, CommandValues, PowerShellHead, PowerShellRest, HasNames;
    NewAfterNothing(PowerShellHead());
    PowerShellPropsNames(cs);
    PowerShellIsFlat(0);
    assert VALUE !in POWER_NAMES[..2] && VALUE !in POWER_NAMES[3..] by { PowerNamesPlain(); }
    NormPropsNames(PowerShellHead(), POWER_NAMES[..2]);
    NormPropsNames(PowerShellRest(), POWER_NAMES[3..]);
    Regroup(h, c, l);
    DistinctParts(h, c + l);
    DistinctParts(h + c, l);
    NewPart(h, c, l);
    SameNames(h, PowerShellHead(), POWER_NAMES[..2]);
    SameNames(l, PowerShellRest(), POWER_NAMES[3..]);
    assert c[0].name == "Cmds";
  }

  lemma PowerNamesPlain()
    ensures VALUE !in POWER_NAMES
  {
    var n := POWER_NAMES;
    assert |n[0]| == 8 && |n[1]| == 9 && |n[2]| == 4 && |n[3]| == 7 && |n[4]| == 28 && |VALUE| == 6;
  }

  lemma EnumIsWf(enumType: string, shown: string, i: int)
    requires Wf(Int(I32, i))
    ensures Wf(PsEnum(enumType, shown, i)) && Nesting(PsEnum(enumType, shown, i)) == 2
  {
    var ps := [Prop(VALUE, Int(I32, i))];
    assert ps[1..] == [];
    WfOfObject(PsEnum(enumType, shown, i));
    NestingOfObject(PsEnum(enumType, shown, i));
    NormPropsStep(ps);
    NormPropsStep(ps[1..]);
    assert ps[0].name == VALUE && BareNesting(ps[0].value) == 1;
  }

  lemma HostInfoIsWf()
    ensures Wf(HostInfoNull()) && Nesting(HostInfoNull()) <= 2
  {
    var v := HostInfoNull();
    var ps := v.props;
    assert |ps[0].name| == 11 && |ps[1].name| == 13 && |ps[2].name| == 16 && |ps[3].name| == 16 && |VALUE| == 6;
    assert ps[2].name[1] == 'i' && ps[3].name[1] == 'u';
    WfOfObject(v);
    NestingOfObject(v);
    NoValue(ps);
    FlatProps(ps);
  }

  lemma {:induction false} FlatProps(ps: seq<Prop>)
    requires forall i :: 0 <= i < |ps| ==> ps[i].value.Null? || ps[i].value.Bool?
    ensures PropsNesting(ps) <= 1
  {
    if ps != [] {
      FlatProps(ps[1..]);
    }
  }

  lemma {:induction false} NoValue(ps: seq<Prop>)
    requires forall i :: 0 <= i < |ps| ==> ps[i].name != VALUE
    ensures ValueNesting(ps) == 0
  {
    if ps != [] {
      NoValue(ps[1..]);
    }
  }

  lemma {:induction false} PropsNestingBound(ps: seq<Prop>, n: nat)
    requires forall i :: 0 <= i < |ps| ==> Nesting(ps[i].value) <= n
    ensures PropsNesting(ps) <= n
  {
    hide Nesting;
    if ps != [] {
      PropsNestingBound(ps[1..], n);
    }
  }

  lemma RootIsFlat(o: Options)
    ensures PropsNesting(RootHead(o)) <= 2 && PropsNesting(RootRest()) <= 2
    ensures forall i :: 0 <= i < |RootHead(o)| ==> Wf(RootHead(o)[i].value)
    ensures forall i :: 0 <= i < |RootRest()| ==> Wf(RootRest()[i].value)
    ensures HasNames(RootHead(o), ROOT_NAMES[..5]) && HasNames(RootRest(), ROOT_NAMES[6..])
  {
    hide PsEnum, HostInfoNull, Wf, Nesting, PropsNesting;
    FlagsAreWf(o.noInput);
    FlagsAreWf(o.addToHistory);
    FlagsAreWf(false);
    HostInfoIsWf();
    EnumIsWf("System.Management.Automation.Runspaces.ApartmentState", "UNKNOWN", 2);
    EnumIsWf("System.Management.Automation.Runspaces.RemoteStreamOptions",
             if o.addInvocationInfo then "AddInvocationInfo" else "None", if o.addInvocationInfo then 15 else 0);
    PropsNestingBound(RootHead(o), 2);
    PropsNestingBound(RootRest(), 2);
  }

  lemma FlagsAreWf(b: bool)
    ensures Wf(Bool(b)) && Nesting(Bool(b)) == 1
    ensures Wf(Int(I32, 0)) && Wf(Int(I32, 2)) && Wf(Int(I32, 15))
  {
  }

  lemma RootNamesPlain()
    ensures VALUE !in ROOT_NAMES
  {
    var n := ROOT_NAMES;
    assert |n[0]| == 7 && |n[1]| == 14 && |n[2]| == 19 && |n[3]| == 12 && |n[4]| == 8 && |n[5]| == 10 && |n[6]| == 8
        && |VALUE| == 6;
  }

  lemma RootStages(o: Options, cs: seq<Command>, h: seq<Prop>, c: seq<Prop>, l: seq<Prop>)
    requires h == NormProps(RootHead(o)) && l == NormProps(RootRest())
    requires c == [Prop("PowerShell", Object([], None, PowerShellProps(cs)))]
    ensures NewNames([], RootHead(o)) && DistinctNames(RootHead(o)) && DistinctNames(RootRest())
    ensures forall i :: 0 <= i < |h| ==> h[i].name != "PowerShell"
    ensures NewNames(h + c, RootRest()) && (h + c) + l == RootProps(o, cs) && RootProps(o, cs) != []
  {
    hide NormProps, PowerShellProps, RootHead, RootRest, HasNames;
    NewAfterNothing(RootHead(o));
    RootPropsNames(o, cs);
    RootIsFlat(o);
    RootNamesPlain();
    assert VALUE !in ROOT_NAMES[..5] && VALUE !in ROOT_NAMES[6..];
    NormPropsNames(RootHead(o), ROOT_NAMES[..5]);
    NormPropsNames(RootRest(), ROOT_NAMES[6..]);
    Regroup(h, c, l);
    DistinctParts(h, c + l);
    DistinctParts(h + c, l);
    NewPart(h, c, l);
    SameNames(h, RootHead(o), ROOT_NAMES[..5]);
    SameNames(l, RootRest(), ROOT_NAMES[6..]);
    assert c[0].name == "PowerShell";
  }

  /** The members of the root, and what follows them. */
  function RootInner(o: Options, cs: seq<Command>, k: seq<Token>): seq<Token> {
    var head := EncProps(RootHead(o), NextId(0));
    var power := PowerShellObj(cs, head.next);
    var last := EncProps(RootRest(), power.next);
    head.toks + (power.toks + (last.toks + k))
  }

  /** The document takes no more ids than there are. */
  predicate Issuable(o: Options, cs: seq<Command>) {
    Document(o, cs).next < U32_MAX
  }

  predicate AllWf(cs: seq<Command>) {
    forall i :: 0 <= i < |cs| ==> CommandWf(cs[i])
  }

  /** The members of the root. */
  lemma ReadRootMembers(p: Policy, d: Dec, o: Options, cs: seq<Command>, k: seq<Token>) returns (d2: Dec)
    requires NoRefs(p) && AllWf(cs) && Issuable(o, cs)
    ensures MembersRead(p, d, d2, RootInner(o, cs, k), k, 0, 1, RootProps(o, cs), AllRead(cs))
  {
    hide ParseMemberSet, Insert, Resumes, AllRead, CommandWf, PowerShellObj, EncProps, RootHead, RootRest, NormProps,
         PropsNesting, NewNames, DistinctNames, Wf, HasNames, PowerShellProps, RootProps;
    var n := NextId(0);
    var head := EncProps(RootHead(o), n);
    var power := PowerShellObj(cs, head.next);
    var last := EncProps(RootRest(), power.next);
    var H, C, L := NormProps(RootHead(o)), [Prop("PowerShell", Object([], None, PowerShellProps(cs)))], NormProps(RootRest());
    RootIsFlat(o);
    RootStages(o, cs, H, C, L);
    var k1, k2 := power.toks + (last.toks + k), last.toks + k;
    var d0 := ReadProps(p, d, RootHead(o), n, k1, 1, [], "MS");
    assert [] + H == H;
    RestOf(d, d0, k1, n);
    var d1 := ReadPowerShell(p, d0, cs, head.next, k2, H);
    d2 := d1;
    if AllRead(cs) {
      InsertNew(H, "PowerShell", C[0].value);
      RestOf(d0, d1, k2, head.next);
      ResumesTwice(d, d0, d1, k1, k2, n, head.next);
      d2 := ReadProps(p, d1, RootRest(), power.next, k, 1, H + C, "MS");
      ResumesTwice(d, d1, d2, k2, k, n, power.next);
      ResumesEarlier(d, d2, k, 0, n);
    }
  }

  /** The document, under any policy that keeps no object. */
  lemma ReadPipeline(p: Policy, o: Options, cs: seq<Command>)
    requires NoRefs(p) && (forall i :: 0 <= i < |cs| ==> CommandWf(cs[i])) && Document(o, cs).next < U32_MAX
    ensures var r := ParseDocument(p, Fresh(Document(o, cs).toks), []);
      if AllRead(cs) then r.Ok? && r.value.value == [PipelineValue(o, cs)] else r == Err(TooDeep)
  {
    hide ParseDocument, ParseElement, ParseObjBody, ParseMemberSet, NameOf, RefIdOf, Resumes, AllRead, OpenObj, CommandWf,
         PowerShellObj, EncProps, RootHead, RootRest, MemberSet, NextId, OpenIdFirst, RootProps;
    var head := EncProps(RootHead(o), NextId(0));
    var power := PowerShellObj(cs, head.next);
    var last := EncProps(RootRest(), power.next);
    var inner := head.toks + (power.toks + last.toks);
    var ends := ([End("MS")] + [End("Obj")]) + [];
    var toks := Document(o, cs).toks;
    var d := Fresh(toks);
    OpenReads(None, 0);
    IsObj(None, 0);
    MemberSetPieces(OpenObj(None, 0), inner, []);
    assert toks + [] == toks;
    Three(head.toks, power.toks, last.toks, ends);
    DocumentStart(p, d, []);
    ObjElement(p, d.(rest := toks[1..]), toks[0].attrs, 0);
    var d1 := ReadRootMembers(p, d, o, cs, ends);
    if AllRead(cs) {
      RestOf2(d, d1, ends, 0);
      RootIsSome(o, cs);
      MembersOnly(p, d, inner + ends, 1, Ok(Out(RootProps(o, cs), d1)), RootProps(o, cs), []);
      DocumentEnd(p, d1.(rest := []), [PipelineValue(o, cs)]);
      assert [] + Some(PipelineValue(o, cs)).ToSeq() == [PipelineValue(o, cs)];
    } else {
      MembersFail(p, d, inner + ends, 1);
    }
  }

  lemma RootIsSome(o: Options, cs: seq<Command>)
    ensures RootProps(o, cs) != []
    ensures PipelineValue(o, cs) == Object([], None, RootProps(o, cs))
  {
    hide NormProps, PowerShellProps;
  }

  // ---- When it fits ----

  lemma {:induction false} ArgsNesting(args: seq<Arg>)
    ensures 5 + ItemsNesting(ArgValues(args)) <= MAX_NESTING_DEPTH
       <==> forall i :: 0 <= i < |args| ==> 6 + Nesting(ArgContent(args[i])) <= MAX_NESTING_DEPTH
  {
    hide Nesting, ArgContent;
    if args != [] {
      ArgsNesting(args[1..]);
      ArgNesting(args[0]);
      assert ArgValues(args)[1..] == ArgValues(args[1..]);
      assert forall i :: 0 < i < |args| ==> args[i] == args[1..][i - 1];
    }
  }

  lemma ArgNesting(a: Arg)
    ensures 5 + Nesting(ArgValue(a)) <= MAX_NESTING_DEPTH <==> 6 + Nesting(ArgContent(a)) <= MAX_NESTING_DEPTH
  {
    hide ArgContent, Nesting;
    var ps := ArgValue(a).props;
    assert |ps[0].name| == 1 && |ps[1].name| == 1 && |VALUE| == 6;
    NestingOfObject(ArgValue(a));
    NoValue(ps);
    NormPropsStep(ps);
    NormPropsStep(ps[1..]);
    NormPropsStep(ps[2..]);
    assert ps[1..][1..] == ps[2..];
    assert Nesting(ps[0].value) <= 1 by { NestingOfName(if a.Positional? then "" else a.name); }
  }

  lemma NestingOfName(s: string)
    ensures Nesting(Null) == 0 && Nesting(Textual(Str, s)) == 1
  {
  }

  lemma FitsIsRead(cs: seq<Command>)
    ensures AllRead(cs) <==> forall i :: 0 <= i < |cs| ==> CommandFits(cs[i])
  {
    hide ItemsNesting, ArgValues, Nesting, ArgContent;
    forall i | 0 <= i < |cs| ensures CommandReads(cs[i]) <==> CommandFits(cs[i]) {
      ArgsNesting(cs[i].args);
    }
  }
}
