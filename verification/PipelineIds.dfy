/** The ids of a `CreatePipeline` document, the builder that writes it, and the main theorem about both. */
module PipelineIds {
  import opened Common
  import opened Text
  import opened Escapes
  import opened Xml
  import opened Values
  import opened Encoder
  import opened Decoder
  import opened RoundTrip
  import opened RefIds
  import opened CreatePipeline
  import opened PipelineDecoding

  // ---- The type-name lists of a run of events ----

  lemma {:induction false} ListIdsAppend(a: seq<Token>, b: seq<Token>)
    ensures ListIds(a + b) == ListIds(a) + ListIds(b)
  {
    hide RawIds;
    if a == [] {
      assert a + b == b;
    } else {
      assert (a + b)[0] == a[0] && (a + b)[1..] == a[1..] + b;
      ListIdsAppend(a[1..], b);
    }
  }

  /** Then, with the lists of the first part known to the second. */
  lemma ThenMore(a: Emitted, b: Emitted, from: nat, known: set<string>)
    requires Issues(a, from, known) && Issues(b, a.next, known + ListIds(a.toks))
    ensures Issues(Emitted(a.toks + b.toks, b.next), from, known)
  {
    hide ShowNat, IssuedIds, Clean, SharesBack, ListIds;
    IssuedAppend(a.toks, b.toks);
    SharesAppend(a.toks, b.toks, known);
    ShownAppend(from, a.next, b.next);
  }

  lemma BlockLists(names: seq<string>, id: nat)
    requires names != []
    ensures ShowNat(id) in ListIds(TypeNameBlock(names, id))
  {
    hide ShowNat, TypeNameItems, ListIds;
    OneId(None, id);
    var open := Start("TN", [IdAttr(id)]);
    ListIdsAppend([open], TypeNameItems(names) + [End("TN")]);
    assert ListIds([open]) == (set x | x in [ShowNat(id)]) by { ListOfStart(open, id); }
    assert ShowNat(id) in [ShowNat(id)];
  }

  lemma ListOfStart(t: Token, id: nat)
    requires t.Start? && t.tag == "TN" && RawIds(t.attrs) == [ShowNat(id)]
    ensures ListIds([t]) == set x | x in [ShowNat(id)]
  {
    hide RawIds, ShowNat;
    assert [t][1..] == [];
    assert ListIds([]) == {};
  }

  lemma ListsInside(a: seq<Token>, b: seq<Token>, c: seq<Token>)
    ensures ListIds(b) <= ListIds(a + (b + c))
  {
    hide ListIds;
    ListIdsAppend(a, b + c);
    ListIdsAppend(b, c);
  }

  // ---- Enumerations ----

  lemma EnumTailIsSilent(m: Merge)
    requires Wf(Int(I32, m.i))
    ensures Silent(EnumTail(m))
  {
    hide Silent, DisplayBlock, Simple, ShowInt, Unescape;
    DisplayIsSilent(Some(m.shown));
    ScalarReads(Int(I32, m.i));
    SimpleIsSilent("I32", ShowInt(m.i), None);
    OneToken(End("Obj"));
    SilentAppend(Number(m.i), [End("Obj")]);
    SilentAppend(DisplayBlock(Some(m.shown)), Number(m.i) + [End("Obj")]);
  }

  lemma EnumFirstIssues(m: Merge, next: nat, known: set<string>)
    requires Wf(Int(I32, m.i))
    ensures Issues(EnumFirst(m, next), next, known) && ShowNat(NextId(next)) in ListIds(EnumFirst(m, next).toks)
  {
    hide Silent, Issues, EnumTail, TypeNameBlock, EnumNames, OpenObj, ListIds, ShowNat, NextId;
    var id := NextId(next);
    var block := TypeNameBlock(EnumNames(RESULT_TYPES), id);
    EnumNamesOf(m);
    OpenIssues(Some(m.name), next, known);
    TypeNameBlockIssues(EnumNames(RESULT_TYPES), id, known);
    EnumTailIsSilent(m);
    ThenSilent(Emitted(block, NextId(id)), EnumTail(m), id, known);
    Then(Emitted([OpenObj(Some(m.name), next)], id), Emitted(block + EnumTail(m), NextId(id)), next, known);
    BlockLists(EnumNames(RESULT_TYPES), id);
    ListsInside([OpenObj(Some(m.name), next)], block, EnumTail(m));
  }

  lemma ShareIssues(tn: nat, next: nat, known: set<string>)
    requires ShowNat(tn) in known
    ensures Issues(Emitted([Empty("TNRef", [IdAttr(tn)])], next), next, known)
  {
    hide ShowNat, RawIds, ListIds;
    OneId(None, tn);
    var t := Empty("TNRef", [IdAttr(tn)]);
    assert [t][1..] == [];
    assert SharesBack([], known + ListIds([t]));
    assert IssuedIds([t]) == [] + IssuedIds([]);
  }

  lemma EnumRefIssues(m: Merge, tn: nat, next: nat, known: set<string>)
    requires Wf(Int(I32, m.i)) && ShowNat(tn) in known
    ensures Issues(EnumRef(m, tn, next), next, known)
  {
    hide Silent, Issues, EnumTail, OpenObj, ShowNat, NextId, IdAttr;
    var n := NextId(next);
    var share := [Empty("TNRef", [IdAttr(tn)])];
    OpenIssues(Some(m.name), next, known);
    ShareIssues(tn, n, known);
    EnumTailIsSilent(m);
    ThenSilent(Emitted(share, n), EnumTail(m), n, known);
    Then(Emitted([OpenObj(Some(m.name), next)], n), Emitted(share + EnumTail(m), n), next, known);
  }

  lemma {:induction false} EnumRefsIssue(ms: seq<Merge>, tn: nat, next: nat, known: set<string>)
    requires MergesWf(ms) && ShowNat(tn) in known
    ensures Issues(EnumRefs(ms, tn, next), next, known)
  {
    hide Silent, Issues, EnumRef, ShowNat;
    if ms == [] {
      NothingIsSilent();
      SilentIssues([], next, known);
    } else {
      EnumRefIssues(ms[0], tn, next, known);
      var e := EnumRef(ms[0], tn, next);
      EnumRefsIssue(ms[1..], tn, e.next, known);
      Then(e, EnumRefs(ms[1..], tn, e.next), next, known);
    }
  }

  lemma MergesIssue(ms: seq<Merge>, tn: Option<nat>, next: nat, known: set<string>)
    requires ms != [] && MergesWf(ms) && (tn.Some? ==> ShowNat(tn.value) in known)
    ensures Issues(Merges(ms, tn, next), next, known)
    ensures ShowNat(SharedId(tn, next)) in known + ListIds(Merges(ms, tn, next).toks)
  {
    hide Issues, EnumFirst, EnumRefs, ShowNat, ListIds;
    if tn.Some? {
      EnumRefsIssue(ms, tn.value, next, known);
    } else {
      var e := EnumFirst(ms[0], next);
      EnumFirstIssues(ms[0], next, known);
      assert Merges(ms, tn, next).toks == e.toks + EnumRefs(ms[1..], NextId(next), e.next).toks;
      EnumRefsIssue(ms[1..], NextId(next), e.next, known + ListIds(e.toks));
      ThenMore(e, EnumRefs(ms[1..], NextId(next), e.next), next, known);
      ListIdsAppend(e.toks, EnumRefs(ms[1..], NextId(next), e.next).toks);
    }
  }

  // ---- Commands ----

  lemma OpenIdFirstIssues(name: string, id: nat, known: set<string>)
    ensures Issues(Emitted([OpenIdFirst(name, id)], NextId(id)), id, known)
  {
    OneId(Some(name), id);
    StartIssues("Obj", [IdAttr(id)] + NameAttr(Some(name)), id, known);
  }

  lemma ArgsIssue(args: seq<Arg>, listId: nat, next: nat, known: set<string>)
    requires ShowNat(listId) in known && forall i :: 0 <= i < |args| ==> Wf(ArgContent(args[i]))
    ensures Issues(ArgsObj(args, listId, next), next, known)
  {
    hide Silent, Issues, OpenIdFirst, ShowNat, NextId, IdAttr, EncItems, ArgValues, ArgContent, Wf, Wrapped;
    var n := NextId(next);
    var share := [Empty("TNRef", [IdAttr(listId)])];
    var e := EncItems(ArgValues(args), n);
    ArgsWf(args);
    WfItems(ArgValues(args));
    ItemsIssue(ArgValues(args), n, known);
    WrappedIssues("LST", e, n, known);
    OneToken(End("Obj"));
    ThenSilent(Emitted(Wrapped("LST", e.toks), e.next), [End("Obj")], n, known);
    ShareIssues(listId, n, known);
    Then(Emitted(share, n), Emitted(Wrapped("LST", e.toks) + [End("Obj")], e.next), n, known);
    OpenIdFirstIssues("Args", next, known);
    Then(Emitted([OpenIdFirst("Args", next)], n), Emitted(share + (Wrapped("LST", e.toks) + [End("Obj")]), e.next), next, known);
  }

  lemma WfItems(items: seq<Value>)
    requires Wf(List(items))
    ensures forall i :: 0 <= i < |items| ==> Wf(items[i])
  {
  }

  lemma EndsAreSilent()
    ensures Silent([End("MS")] + [End("Obj")]) && Silent([Start("MS", [])])
  {
    hide Silent;
    OneToken(End("MS"));
    OneToken(End("Obj"));
    SilentAppend([End("MS")], [End("Obj")]);
    SilentStart("MS", []);
  }

  lemma MemberSetIssues(e: Emitted, from: nat, known: set<string>)
    requires Issues(e, from, known)
    ensures Issues(Emitted(MemberSet(e.toks), e.next), from, known)
  {
    hide Silent, Issues;
    EndsAreSilent();
    var ends := [End("MS")] + [End("Obj")];
    ThenSilent(e, ends, from, known);
    SilentThen([Start("MS", [])], Emitted(e.toks + ends, e.next), from, known);
  }

  lemma CommandIssues(c: Command, tn: Option<nat>, listId: nat, next: nat, known: set<string>)
    requires CommandWf(c) && ShowNat(listId) in known && (tn.Some? ==> ShowNat(tn.value) in known)
    ensures Issues(EncCommand(c, tn, listId, next), next, known)
    ensures ShowNat(NextShared(c, tn, next)) in known + ListIds(EncCommand(c, tn, listId, next).toks)
  {
    hide Issues, ShowNat, NextId, EncProps, CommandHead, Merges, MergeFields, LaterMerges, MergesWf, ArgsObj, EnumRefs,
         MemberSet, OpenObj, ListIds, Wf, ArgContent, SharedId;
    var n := NextId(next);
    var head := EncProps(CommandHead(c), n);
    var merges := Merges(MergeFields(c), tn, head.next);
    var args := ArgsObj(c.args, listId, merges.next);
    var shared := SharedId(tn, head.next);
    var later := EnumRefs(LaterMerges(), shared, args.next);
    MergesAreWf(c);
    CommandHeadIsFlat(c, n);
    PropsIssue(CommandHead(c), n, known);
    MergesIssue(MergeFields(c), tn, head.next, known);
    var more := known + ListIds(merges.toks);
    ArgsIssue(c.args, listId, merges.next, more);
    EnumRefsIssue(LaterMerges(), shared, args.next, more);
    Then(args, later, merges.next, more);
    ThenMore(merges, Emitted(args.toks + later.toks, later.next), head.next, known);
    var inner := head.toks + (merges.toks + (args.toks + later.toks));
    Then(head, Emitted(merges.toks + (args.toks + later.toks), later.next), n, known);
    MemberSetIssues(Emitted(inner, later.next), n, known);
    OpenIssues(None, next, known);
    Then(Emitted([OpenObj(None, next)], n), Emitted(MemberSet(inner), later.next), next, known);
    ListsInside(head.toks, merges.toks, args.toks + later.toks);
    MemberSetLists([OpenObj(None, next)], inner);
    SharedOf(c, tn, next, shared);
  }

  lemma MemberSetLists(open: seq<Token>, inner: seq<Token>)
    ensures ListIds(inner) <= ListIds(open + MemberSet(inner))
  {
    hide ListIds;
    var ends := [End("MS")] + [End("Obj")];
    ListsInside([Start("MS", [])], inner, ends);
    ListIdsAppend(open, MemberSet(inner));
  }

  lemma {:induction false} CommandsIssue(cs: seq<Command>, tn: Option<nat>, listId: nat, next: nat, known: set<string>)
    requires forall i :: 0 <= i < |cs| ==> CommandWf(cs[i])
    requires ShowNat(listId) in known && (tn.Some? ==> ShowNat(tn.value) in known)
    ensures Issues(EncCommands(cs, tn, listId, next), next, known)
    decreases cs
  {
    hide Silent, Issues, EncCommand, ShowNat, CommandWf, NextShared, ListIds;
    if cs == [] {
      NothingIsSilent();
      SilentIssues([], next, known);
    } else {
      CommandIssues(cs[0], tn, listId, next, known);
      var e := EncCommand(cs[0], tn, listId, next);
      var shared := Some(NextShared(cs[0], tn, next));
      CommandsIssue(cs[1..], shared, listId, e.next, known + ListIds(e.toks));
      ThenMore(e, EncCommands(cs[1..], shared, listId, e.next), next, known);
    }
  }

  // ---- The document: one pair of ids out of order ----

  /** The ids from `from` to `to`, with `n` and `n + 1` swapped. */
  function Swapped(from: nat, n: nat, to: nat): seq<string> {
    Shown(from, n) + ([ShowNat(n + 1), ShowNat(n)] + Shown(n + 2, to))
  }

  predicate IssuesSwapped(e: Emitted, from: nat, n: nat, known: set<string>) {
    Clean(e.toks) && SharesBack(e.toks, known)
    && (e.next < U32_MAX ==> from <= n && n + 2 <= e.next && IssuedIds(e.toks) == Swapped(from, n, e.next))
  }

  lemma Before(a: Emitted, b: Emitted, from: nat, n: nat, known: set<string>)
    requires Issues(a, from, known) && IssuesSwapped(b, a.next, n, known) && a.next <= b.next
    ensures IssuesSwapped(Emitted(a.toks + b.toks, b.next), from, n, known)
  {
    hide ShowNat, IssuedIds, Clean, SharesBack, ListIds, Shown;
    IssuedAppend(a.toks, b.toks);
    SharesMore(b.toks, known, known + ListIds(a.toks));
    SharesAppend(a.toks, b.toks, known);
    if b.next < U32_MAX {
      ShownAppend(from, a.next, n);
      Regroup(Shown(from, a.next), Shown(a.next, n), [ShowNat(n + 1), ShowNat(n)] + Shown(n + 2, b.next));
    }
  }

  lemma After(a: Emitted, b: Emitted, from: nat, n: nat, known: set<string>)
    requires IssuesSwapped(a, from, n, known) && Issues(b, a.next, known)
    ensures IssuesSwapped(Emitted(a.toks + b.toks, b.next), from, n, known)
  {
    hide ShowNat, IssuedIds, Clean, SharesBack, ListIds, Shown;
    IssuedAppend(a.toks, b.toks);
    SharesMore(b.toks, known, known + ListIds(a.toks));
    SharesAppend(a.toks, b.toks, known);
    if b.next < U32_MAX {
      ShownAppend(n + 2, a.next, b.next);
      AfterShown(Shown(from, n), [ShowNat(n + 1), ShowNat(n)], Shown(n + 2, a.next), Shown(a.next, b.next));
    }
  }

  lemma AfterShown<T>(a: seq<T>, b: seq<T>, c: seq<T>, e: seq<T>)
    ensures (a + (b + c)) + e == a + (b + (c + e))
  {
  }

  lemma CmdsIssue(cs: seq<Command>, next: nat, known: set<string>)
    requires forall i :: 0 <= i < |cs| ==> CommandWf(cs[i])
    ensures IssuesSwapped(CmdsObj(cs, next), next, next, known)
  {
    hide Silent, Issues, ShowNat, EncCommands, CommandWf, TypeNameBlock, OpenIdFirst, Wrapped, ListIds, IssuedIds, Clean,
         SharesBack, Shown, NextId;
    var id, n := NextId(next), NextId(NextId(next));
    var block := TypeNameBlock(COMMAND_LIST, next);
    var more := known + ListIds(block);
    var e := EncCommands(cs, None, next, n);
    var tail := Wrapped("LST", e.toks) + [End("Obj")];
    BlockLists(COMMAND_LIST, next);
    CommandsIssue(cs, None, next, n, more);
    WrappedIssues("LST", e, n, more);
    OneToken(End("Obj"));
    ThenSilent(Emitted(Wrapped("LST", e.toks), e.next), [End("Obj")], n, more);
    TypeNameBlockIssues(COMMAND_LIST, next, known);
    OpenIdFirstIssues("Cmds", id, known);
    CmdsCompose([OpenIdFirst("Cmds", id)], block, tail, next, e.next, known);
  }

  lemma CmdsCompose(open: seq<Token>, block: seq<Token>, tail: seq<Token>, next: nat, to: nat, known: set<string>)
    requires Issues(Emitted(open, NextId(NextId(next))), NextId(next), known)
    requires Issues(Emitted(block, NextId(next)), next, known)
    requires Issues(Emitted(tail, to), NextId(NextId(next)), known + ListIds(block))
    ensures IssuesSwapped(Emitted(open + (block + tail), to), next, next, known)
  {
    hide ShowNat, IssuedIds, Clean, SharesBack, ListIds, Shown;
    SharesAppend(block, tail, known);
    SharesMore(block + tail, known, known + ListIds(open));
    SharesAppend(open, block + tail, known);
    QuietParts(open, block, tail);
    IssuedAppend(block, tail);
    IssuedAppend(open, block + tail);
    if to < U32_MAX {
      ShownOne(next);
      ShownOne(next + 1);
      Regroup([ShowNat(next + 1)], [ShowNat(next)], Shown(next + 2, to));
      assert [ShowNat(next + 1)] + [ShowNat(next)] == [ShowNat(next + 1), ShowNat(next)];
      assert [] + ([ShowNat(next + 1), ShowNat(next)] + Shown(next + 2, to))
          == [ShowNat(next + 1), ShowNat(next)] + Shown(next + 2, to);
    }
  }

  lemma QuietParts(a: seq<Token>, b: seq<Token>, c: seq<Token>)
    requires Clean(a) && Clean(b) && Clean(c)
    ensures Clean(a + (b + c))
  {
    hide Clean, IssuedIds;
    IssuedAppend(b, c);
    IssuedAppend(a, b + c);
  }

  lemma ShownOne(n: nat)
    ensures Shown(n, n + 1) == [ShowNat(n)] && Shown(n, n) == []
  {
    hide ShowNat;
    assert Shown(n + 1, n + 1) == [];
  }

  lemma MemberSetSwapped(e: Emitted, from: nat, n: nat, known: set<string>)
    requires IssuesSwapped(e, from, n, known) && from <= e.next
    ensures IssuesSwapped(Emitted(MemberSet(e.toks), e.next), from, n, known)
  {
    hide Silent, Issues, IssuesSwapped;
    EndsAreSilent();
    var ends := [End("MS")] + [End("Obj")];
    SilentIssues(ends, e.next, known);
    After(e, Emitted(ends, e.next), from, n, known);
    SilentIssues([Start("MS", [])], from, known);
    Before(Emitted([Start("MS", [])], from), Emitted(e.toks + ends, e.next), from, n, known);
  }

  lemma PowerShellIssues(cs: seq<Command>, next: nat, known: set<string>)
    requires forall i :: 0 <= i < |cs| ==> CommandWf(cs[i])
    ensures IssuesSwapped(PowerShellObj(cs, next), next, NextId(next), known)
  {
    hide Issues, IssuesSwapped, CommandWf, CmdsObj, EncProps, PowerShellHead, PowerShellRest, MemberSet, OpenObj, Wf,
         PropsNesting, HasNames;
    var n := NextId(next);
    var head := EncProps(PowerShellHead(), n);
    var cmds := CmdsObj(cs, head.next);
    var last := EncProps(PowerShellRest(), cmds.next);
    PowerShellIsFlat(n);
    PowerShellIsFlat(cmds.next);
    PropsIssue(PowerShellHead(), n, known);
    CmdsIssue(cs, head.next, known);
    PropsIssue(PowerShellRest(), cmds.next, known);
    After(cmds, last, head.next, n, known);
    Before(head, Emitted(cmds.toks + last.toks, last.next), n, n, known);
    MemberSetSwapped(Emitted(head.toks + (cmds.toks + last.toks), last.next), n, n, known);
    OpenIssues(Some("PowerShell"), next, known);
    Before(Emitted([OpenObj(Some("PowerShell"), next)], n),
           Emitted(MemberSet(head.toks + (cmds.toks + last.toks)), last.next), next, n, known);
  }

  /** The id of the command list's type names. */
  function ListId(o: Options): nat {
    NextId(EncProps(RootHead(o), NextId(0)).next)
  }

  lemma DocumentIssues(o: Options, cs: seq<Command>)
    requires forall i :: 0 <= i < |cs| ==> CommandWf(cs[i])
    ensures IssuesSwapped(Document(o, cs), 0, ListId(o), {})
  {
    hide Issues, IssuesSwapped, CommandWf, PowerShellObj, EncProps, RootHead, RootRest, MemberSet, OpenObj, Wf,
         PropsNesting, HasNames, NextId;
    var n := NextId(0);
    var head := EncProps(RootHead(o), n);
    var power := PowerShellObj(cs, head.next);
    var last := EncProps(RootRest(), power.next);
    RootIsFlat(o);
    PropsIssue(RootHead(o), n, {});
    PowerShellIssues(cs, head.next, {});
    PropsIssue(RootRest(), power.next, {});
    After(power, last, head.next, ListId(o), {});
    Before(head, Emitted(power.toks + last.toks, last.next), n, ListId(o), {});
    MemberSetSwapped(Emitted(head.toks + (power.toks + last.toks), last.next), n, ListId(o), {});
    OpenIssues(None, 0, {});
    Before(Emitted([OpenObj(None, 0)], n), Emitted(MemberSet(head.toks + (power.toks + last.toks)), last.next),
           0, ListId(o), {});
  }

  lemma {:induction false} ShownAt(a: nat, b: nat, i: nat)
    requires i < |Shown(a, b)|
    ensures Shown(a, b)[i] == ShowNat(a + i)
    decreases b - a
  {
    hide ShowNat;
    if i > 0 {
      ShownAt(a + 1, b, i - 1);
    }
  }

  /** Which id stands at position `i`. */
  function SwappedId(n: nat, i: nat): nat {
    if i == n then n + 1 else if i == n + 1 then n else i
  }

  lemma SwappedAt(n: nat, to: nat, i: nat)
    requires n + 2 <= to && i < to
    ensures |Swapped(0, n, to)| == to && Swapped(0, n, to)[i] == ShowNat(SwappedId(n, i))
  {
    hide ShowNat, Shown;
    if i < n { ShownAt(0, n, i); }
    if i >= n + 2 { ShownAt(n + 2, to, i - (n + 2)); }
  }

  lemma SwappedIsDistinct(n: nat, to: nat)
    requires n + 2 <= to
    ensures Distinct(Swapped(0, n, to))
  {
    hide ShowNat, Shown, Swapped;
    SwappedAt(n, to, 0);
    var s := Swapped(0, n, to);
    forall i, j | 0 <= i < j < |s| ensures s[i] != s[j] {
      SwappedAt(n, to, i);
      SwappedAt(n, to, j);
      if s[i] == s[j] { ShowNatInjective(SwappedId(n, i), SwappedId(n, j)); }
    }
  }

  /** No two elements share an id, and every `<TNRef>` points to a `<TN>` before it. */
  lemma DocumentIdsAreDistinct(o: Options, cs: seq<Command>)
    requires forall i :: 0 <= i < |cs| ==> CommandWf(cs[i])
    requires Document(o, cs).next < U32_MAX
    ensures Distinct(IssuedIds(Document(o, cs).toks)) && SharesBack(Document(o, cs).toks, {})
  {
    hide Document, IssuedIds, SharesBack, Swapped, Clean, CommandWf, ListId;
    DocumentIssues(o, cs);
    SwappedIsDistinct(ListId(o), Document(o, cs).next);
  }

  /** The document decodes to every command, flag, merge field and argument, exactly when the arguments fit. */
  lemma PipelineRoundTrip(o: Options, cs: seq<Command>, length: nat)
    requires forall i :: 0 <= i < |cs| ==> CommandWf(cs[i])
    requires Document(o, cs).next < U32_MAX
    ensures ParseClixml(Document(o, cs).toks, length)
         == if forall i :: 0 <= i < |cs| ==> CommandFits(cs[i]) then Ok([PipelineValue(o, cs)]) else Err(TooDeep)
  {
    hide Document, ParseDocument, ReferencedIds, Clean, SharesBack, IssuedIds, CommandWf, CommandFits, PipelineValue,
         AllRead, ListId;
    DocumentIssues(o, cs);
    CleanHasNoReferences(Document(o, cs).toks);
    FitsIsRead(cs);
    ReadPipeline(Limits(Document(o, cs).toks, length), o, cs);
  }
}
