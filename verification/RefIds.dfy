/** The ids an encoded document issues: consecutive, and never the target of a `<Ref>`. */
module RefIds {
  import opened Common
  import opened Text
  import opened Escapes
  import opened Xml
  import opened Values
  import opened Encoder
  import opened Decoder
  import opened RoundTrip

  function RawIds(attrs: seq<Attr>): seq<string> {
    if attrs == [] then []
    else (if attrs[0].key == "RefId" then [attrs[0].raw] else []) + RawIds(attrs[1..])
  }

  /** The `RefId`s of the objects and type-name lists, in document order. */
  function IssuedIds(toks: seq<Token>): seq<string> {
    if toks == [] then []
    else (if toks[0].Start? && (toks[0].tag == "Obj" || toks[0].tag == "TN") then RawIds(toks[0].attrs) else [])
         + IssuedIds(toks[1..])
  }

  /** The ids of the type-name lists. */
  function ListIds(toks: seq<Token>): set<string> {
    if toks == [] then {}
    else (if toks[0].Start? && toks[0].tag == "TN" then set id | id in RawIds(toks[0].attrs) else {}) + ListIds(toks[1..])
  }

  predicate IsShare(t: Token) {
    (t.Start? || t.Empty?) && t.tag == "TNRef"
  }

  /** Every `<TNRef>` names a type-name list before it, or one of `known`. */
  predicate SharesBack(toks: seq<Token>, known: set<string>) {
    toks == []
    || ((IsShare(toks[0]) ==> exists id :: id in known && RawIds(toks[0].attrs) == [id])
        && SharesBack(toks[1..], known + ListIds([toks[0]])))
  }

  lemma {:induction false} SharesMore(toks: seq<Token>, known: set<string>, more: set<string>)
    requires SharesBack(toks, known) && known <= more
    ensures SharesBack(toks, more)
  {
    hide RawIds, ListIds;
    if toks != [] {
      SharesMore(toks[1..], known + ListIds([toks[0]]), more + ListIds([toks[0]]));
    }
  }

  lemma ListIdsStep(toks: seq<Token>)
    requires toks != []
    ensures ListIds(toks) == ListIds([toks[0]]) + ListIds(toks[1..])
  {
    hide RawIds;
    assert [toks[0]][1..] == [];
  }

  lemma {:induction false} SharesAppend(a: seq<Token>, b: seq<Token>, known: set<string>)
    requires SharesBack(a, known) && SharesBack(b, known + ListIds(a))
    ensures SharesBack(a + b, known)
  {
    hide RawIds, ListIds;
    if a == [] {
      assert a + b == b;
      assert ListIds(a) == {} by { NoLists(); }
      assert known + {} == known;
    } else {
      ListIdsStep(a);
      assert (a + b)[0] == a[0] && (a + b)[1..] == a[1..] + b;
      assert (known + ListIds([a[0]])) + ListIds(a[1..]) == known + ListIds(a);
      SharesAppend(a[1..], b, known + ListIds([a[0]]));
    }
  }

  lemma NoLists()
    ensures ListIds([]) == {}
  {
  }

  lemma {:induction false} NothingShared(toks: seq<Token>, known: set<string>)
    requires forall i :: 0 <= i < |toks| ==> !IsShare(toks[i])
    ensures SharesBack(toks, known)
  {
    hide RawIds, ListIds;
    if toks != [] {
      NothingShared(toks[1..], known + ListIds([toks[0]]));
    }
  }

  /** No syntax error and no `<Ref>`. */
  predicate Clean(toks: seq<Token>) {
    forall i :: 0 <= i < |toks| ==> !toks[i].Bad? && ((toks[i].Start? || toks[i].Empty?) ==> toks[i].tag != "Ref")
  }

  lemma {:induction false} CleanHasNoReferences(toks: seq<Token>)
    requires Clean(toks)
    ensures ReferencedIds(toks) == {}
  {
    if toks != [] {
      CleanHasNoReferences(toks[1..]);
    }
  }

  lemma CleanAppend(a: seq<Token>, b: seq<Token>)
    ensures Clean(a) && Clean(b) ==> Clean(a + b)
  {
  }

  lemma {:induction false} IssuedAppend(a: seq<Token>, b: seq<Token>)
    ensures IssuedIds(a + b) == IssuedIds(a) + IssuedIds(b)
    ensures Clean(a) && Clean(b) ==> Clean(a + b)
  {
    hide RawIds;
    if a == [] {
      assert a + b == b && [] + IssuedIds(b) == IssuedIds(b);
    } else {
      assert (a + b)[0] == a[0] && (a + b)[1..] == a[1..] + b;
      IssuedAppend(a[1..], b);
      CleanAppend(a, b);
    }
  }

  /** The ids from `a` up to, not including, `b`. */
  function Shown(a: nat, b: nat): (r: seq<string>)
    ensures |r| == if a < b then b - a else 0
    decreases b - a
  {
    if a >= b then [] else [ShowNat(a)] + Shown(a + 1, b)
  }

  lemma {:induction false} ShownAppend(a: nat, b: nat, c: nat)
    requires a <= b <= c
    ensures Shown(a, c) == Shown(a, b) + Shown(b, c)
    decreases b - a
  {
    hide ShowNat;
    if a < b {
      ShownAppend(a + 1, b, c);
    } else {
      assert [] + Shown(b, c) == Shown(b, c);
    }
  }

  /** Well-formed events that issue the ids from `from` on, as long as the counter has not saturated. */
  predicate Issues(e: Emitted, from: nat, known: set<string>) {
    Clean(e.toks) && SharesBack(e.toks, known) && from <= e.next && (e.next < U32_MAX ==> IssuedIds(e.toks) == Shown(from, e.next))
  }

  predicate Silent(toks: seq<Token>) {
    Clean(toks) && IssuedIds(toks) == [] && forall i :: 0 <= i < |toks| ==> !IsShare(toks[i])
  }

  lemma Then(a: Emitted, b: Emitted, from: nat, known: set<string>)
    requires Issues(a, from, known) && Issues(b, a.next, known)
    ensures Issues(Emitted(a.toks + b.toks, b.next), from, known)
  {
    hide ShowNat, IssuedIds, Clean, SharesBack, ListIds;
    IssuedAppend(a.toks, b.toks);
    SharesMore(b.toks, known, known + ListIds(a.toks));
    SharesAppend(a.toks, b.toks, known);
    ShownAppend(from, a.next, b.next);
  }

  lemma SilentIssues(toks: seq<Token>, next: nat, known: set<string>)
    requires Silent(toks)
    ensures Issues(Emitted(toks, next), next, known)
  {
    hide IssuedIds, Clean, SharesBack;
    NothingShared(toks, known);
  }

  lemma SilentAppend(a: seq<Token>, b: seq<Token>)
    requires Silent(a) && Silent(b)
    ensures Silent(a + b)
  {
    hide IssuedIds, Clean;
    IssuedAppend(a, b);
  }

  lemma SilentThen(a: seq<Token>, b: Emitted, from: nat, known: set<string>)
    requires Silent(a) && Issues(b, from, known)
    ensures Issues(Emitted(a + b.toks, b.next), from, known)
  {
    hide Issues, Silent;
    SilentIssues(a, from, known);
    Then(Emitted(a, from), b, from, known);
  }

  lemma ThenSilent(a: Emitted, b: seq<Token>, from: nat, known: set<string>)
    requires Issues(a, from, known) && Silent(b)
    ensures Issues(Emitted(a.toks + b, a.next), from, known)
  {
    hide Issues, Silent;
    SilentIssues(b, a.next, known);
    Then(a, Emitted(b, a.next), from, known);
  }

  lemma OneToken(t: Token)
    requires !t.Bad? && !t.Start? && (t.Empty? ==> t.tag != "Ref" && t.tag != "TNRef")
    ensures Silent([t])
  {
    assert [t][1..] == [];
  }

  lemma SilentStart(tag: string, attrs: seq<Attr>)
    requires tag != "Obj" && tag != "TN" && tag != "Ref" && tag != "TNRef"
    ensures Silent([Start(tag, attrs)])
  {
    assert [Start(tag, attrs)][1..] == [];
  }

  lemma {:induction false} LexIsSilent(body: string)
    requires Unescape(body).Some?
    ensures Silent(Lex(body))
    decreases |body|
  {
    hide Lex, FirstEvent, Resolve, Semicolon, NextAmpersand, Unescape, Silent;
    if body == "" {
      LexNothing();
      assert Silent([]) by { NothingIsSilent(); }
    } else {
      if body[0] == '&' { LexReference(body); } else { LexRun(body); }
      LexStep(body);
      var r := body[FirstEvent(body).1..];
      LexIsSilent(r);
      OneToken(FirstEvent(body).0);
      SilentAppend([FirstEvent(body).0], Lex(r));
    }
  }

  lemma NothingIsSilent()
    ensures Silent([])
  {
  }

  lemma SimpleIsSilent(tag: string, body: string, name: Option<string>)
    requires tag != "Obj" && tag != "TN" && tag != "Ref" && tag != "TNRef" && Unescape(body).Some?
    ensures Silent(Simple(tag, body, name))
  {
    hide Silent, Lex, Unescape, NameAttr;
    LexIsSilent(body);
    OneToken(End(tag));
    SilentAppend(Lex(body), [End(tag)]);
    SilentStart(tag, NameAttr(name));
    SilentAppend([Start(tag, NameAttr(name))], Lex(body) + [End(tag)]);
  }

  lemma WrappedIssues(tag: string, e: Emitted, from: nat, known: set<string>)
    requires tag != "Obj" && tag != "TN" && tag != "Ref" && tag != "TNRef" && Issues(e, from, known)
    ensures Issues(Emitted(Wrapped(tag, e.toks), e.next), from, known)
  {
    hide Silent, Issues;
    OneToken(End(tag));
    SilentStart(tag, []);
    ThenSilent(e, [End(tag)], from, known);
    SilentThen([Start(tag, [])], Emitted(e.toks + [End(tag)], e.next), from, known);
  }

  lemma {:induction false} NoRawId(attrs: seq<Attr>, more: seq<Attr>)
    requires forall i :: 0 <= i < |attrs| ==> attrs[i].key != "RefId"
    ensures RawIds(attrs + more) == RawIds(more)
  {
    if attrs == [] {
      assert attrs + more == more;
    } else {
      assert (attrs + more)[1..] == attrs[1..] + more;
      NoRawId(attrs[1..], more);
    }
  }

  lemma OneId(name: Option<string>, id: nat)
    ensures RawIds([IdAttr(id)]) == [ShowNat(id)]
    ensures RawIds(NameAttr(name) + [IdAttr(id)]) == [ShowNat(id)]
    ensures RawIds([IdAttr(id)] + NameAttr(name)) == [ShowNat(id)]
  {
    hide Escape, ShowNat;
    assert [IdAttr(id)][1..] == [];
    assert RawIds([IdAttr(id)]) == [ShowNat(id)] + RawIds([]);
    NoRawId(NameAttr(name), [IdAttr(id)]);
    NoRawId(NameAttr(name), []);
    assert NameAttr(name) + [] == NameAttr(name);
    assert ([IdAttr(id)] + NameAttr(name))[1..] == NameAttr(name);
  }

  /** A start tag that issues one id. */
  lemma StartIssues(tag: string, attrs: seq<Attr>, id: nat, known: set<string>)
    requires (tag == "Obj" || tag == "TN") && RawIds(attrs) == [ShowNat(id)]
    ensures Issues(Emitted([Start(tag, attrs)], NextId(id)), id, known)
  {
    hide RawIds, ShowNat, SharesBack;
    assert [Start(tag, attrs)][1..] == [];
    NothingShared([Start(tag, attrs)], known);
    assert IssuedIds([Start(tag, attrs)]) == [ShowNat(id)] + IssuedIds([]);
    assert id < U32_MAX ==> Shown(id, id + 1) == [ShowNat(id)] + Shown(id + 1, id + 1);
  }

  lemma OpenIssues(name: Option<string>, id: nat, known: set<string>)
    ensures Issues(Emitted([OpenObj(name, id)], NextId(id)), id, known)
  {
    OneId(name, id);
    StartIssues("Obj", NameAttr(name) + [IdAttr(id)], id, known);
  }

  lemma {:induction false} TypeNameItemsAreSilent(names: seq<string>)
    ensures Silent(TypeNameItems(names))
  {
    hide Silent, Simple, Escape, Unescape;
    if names == [] {
      NothingIsSilent();
    } else {
      EscapeRoundTrip(names[0], false);
      SimpleIsSilent("T", Escape(names[0], false), None);
      TypeNameItemsAreSilent(names[1..]);
      SilentAppend(Simple("T", Escape(names[0], false), None), TypeNameItems(names[1..]));
    }
  }

  lemma TypeNameBlockIssues(names: seq<string>, id: nat, known: set<string>)
    ensures Issues(Emitted(TypeNameBlock(names, id), if names == [] then id else NextId(id)), id, known)
  {
    hide Silent, Issues, TypeNameItems, IdAttr, NextId;
    if names == [] {
      NothingIsSilent();
      SilentIssues([], id, known);
    } else {
      OneId(None, id);
      StartIssues("TN", [IdAttr(id)], id, known);
      TypeNameItemsAreSilent(names);
      OneToken(End("TN"));
      SilentAppend(TypeNameItems(names), [End("TN")]);
      ThenSilent(Emitted([Start("TN", [IdAttr(id)])], NextId(id)), TypeNameItems(names) + [End("TN")], id, known);
    }
  }

  lemma DisplayIsSilent(display: Option<string>)
    ensures Silent(DisplayBlock(display))
  {
    hide Silent, Simple, Escape, Unescape;
    if display.None? {
      NothingIsSilent();
    } else {
      EscapeRoundTrip(display.value, false);
      SimpleIsSilent("ToString", Escape(display.value, false), None);
    }
  }

  /** An encoded value issues consecutive ids, starting with its own. */
  lemma {:induction false} ValueIssues(v: Value, name: Option<string>, next: nat, known: set<string>)
    requires Wf(v)
    ensures Issues(EncValue(v, name, next), next, known)
    decreases v, 1
  {
    hide Issues, Silent, Simple, ScalarBody, ScalarTag, EncItems, EncEntries, EncObjBody, Wrapped, OpenObj, NextId,
         NameAttr, Unescape;
    OneToken(End("Obj"));
    OpenIssues(name, next, known);
    match v
    case Null =>
      OneToken(Empty("Nil", NameAttr(name)));
      SilentIssues([Empty("Nil", NameAttr(name))], next, known);
    case List(items) =>
      ItemsIssue(items, NextId(next), known);
      var e := EncItems(items, NextId(next));
      WrappedIssues("LST", e, NextId(next), known);
      ThenSilent(Emitted(Wrapped("LST", e.toks), e.next), [End("Obj")], NextId(next), known);
      Then(Emitted([OpenObj(name, next)], NextId(next)), Emitted(Wrapped("LST", e.toks) + [End("Obj")], e.next), next, known);
    case Dict(entries) =>
      EntriesIssue(entries, NextId(next), known);
      var e := EncEntries(entries, NextId(next));
      WrappedIssues("DCT", e, NextId(next), known);
      ThenSilent(Emitted(Wrapped("DCT", e.toks), e.next), [End("Obj")], NextId(next), known);
      Then(Emitted([OpenObj(name, next)], NextId(next)), Emitted(Wrapped("DCT", e.toks) + [End("Obj")], e.next), next, known);
    case Object(_, _, _) =>
      ObjBodyIssues(v, NextId(next), known);
      var e := EncObjBody(v, NextId(next));
      ThenSilent(e, [End("Obj")], NextId(next), known);
      Then(Emitted([OpenObj(name, next)], NextId(next)), Emitted(e.toks + [End("Obj")], e.next), next, known);
    case _ =>
      TagsReadBack(v);
      ScalarReads(v);
      SimpleIsSilent(ScalarTag(v), ScalarBody(v), name);
      SilentIssues(Simple(ScalarTag(v), ScalarBody(v), name), next, known);
  }

  lemma {:induction false} ItemsIssue(items: seq<Value>, next: nat, known: set<string>)
    requires forall i :: 0 <= i < |items| ==> Wf(items[i])
    ensures Issues(EncItems(items, next), next, known)
    decreases items, 0
  {
    hide Issues, EncValue, Silent, Wf;
    if items == [] {
      NothingIsSilent();
      SilentIssues([], next, known);
    } else {
      var e := EncValue(items[0], None, next);
      ValueIssues(items[0], None, next, known);
      ItemsIssue(items[1..], e.next, known);
      Then(e, EncItems(items[1..], e.next), next, known);
    }
  }

  lemma {:induction false} EntriesIssue(entries: seq<Entry>, next: nat, known: set<string>)
    requires forall i :: 0 <= i < |entries| ==> Wf(entries[i].key) && Wf(entries[i].val)
    ensures Issues(EncEntries(entries, next), next, known)
    decreases entries, 0
  {
    hide Issues, EncEntry, Silent, Wf;
    if entries == [] {
      NothingIsSilent();
      SilentIssues([], next, known);
    } else {
      var e := EncEntry(entries[0], next);
      EntryIssues(entries[0], next, known);
      EntriesIssue(entries[1..], e.next, known);
      Then(e, EncEntries(entries[1..], e.next), next, known);
    }
  }

  lemma EntryIssues(e: Entry, next: nat, known: set<string>)
    requires Wf(e.key) && Wf(e.val)
    ensures Issues(EncEntry(e, next), next, known)
    decreases e, 0
  {
    hide Issues, EncValue, Silent, Wf;
    var k := EncValue(e.key, Some("Key"), next);
    var v := EncValue(e.val, Some("Value"), k.next);
    ValueIssues(e.key, Some("Key"), next, known);
    ValueIssues(e.val, Some("Value"), k.next, known);
    OneToken(End("En"));
    SilentStart("En", []);
    ThenSilent(v, [End("En")], k.next, known);
    Then(k, Emitted(v.toks + [End("En")], v.next), next, known);
    SilentThen([Start("En", [])], Emitted(k.toks + (v.toks + [End("En")]), v.next), next, known);
  }

  lemma BareIssues(v: Value, next: nat, known: set<string>)
    requires Wf(v)
    ensures Issues(EncBare(v, next), next, known)
    decreases v, 2
  {
    hide Issues, EncValue, EncItems, EncEntries;
    match v
    case List(items) =>
      ItemsIssue(items, next, known);
      WrappedIssues("LST", EncItems(items, next), next, known);
    case Dict(entries) =>
      EntriesIssue(entries, next, known);
      WrappedIssues("DCT", EncEntries(entries, next), next, known);
    case _ => ValueIssues(v, None, next, known);
  }

  lemma {:induction false} BareValueIssues(props: seq<Prop>, next: nat, known: set<string>)
    requires forall i :: 0 <= i < |props| ==> Wf(props[i].value)
    ensures Issues(EncBareValue(props, next), next, known)
    decreases props, 0
  {
    hide Issues, EncBare, Silent, Wf;
    if props == [] {
      NothingIsSilent();
      SilentIssues([], next, known);
    } else if props[0].name == VALUE {
      BareIssues(props[0].value, next, known);
    } else {
      BareValueIssues(props[1..], next, known);
    }
  }

  lemma {:induction false} PropsIssue(props: seq<Prop>, next: nat, known: set<string>)
    requires forall i :: 0 <= i < |props| ==> Wf(props[i].value)
    ensures Issues(EncProps(props, next), next, known)
    decreases props, 0
  {
    hide Issues, EncValue, Silent, Wf;
    if props == [] {
      NothingIsSilent();
      SilentIssues([], next, known);
    } else if props[0].name == VALUE {
      PropsIssue(props[1..], next, known);
    } else {
      var e := EncValue(props[0].value, Some(props[0].name), next);
      ValueIssues(props[0].value, Some(props[0].name), next, known);
      PropsIssue(props[1..], e.next, known);
      Then(e, EncProps(props[1..], e.next), next, known);
    }
  }

  lemma MembersIssue(props: seq<Prop>, next: nat, known: set<string>)
    requires forall i :: 0 <= i < |props| ==> Wf(props[i].value)
    ensures Issues(Emitted(MemberBlock(props, next), EncProps(props, next).next), next, known)
    decreases props, 1
  {
    hide Issues, EncProps, Silent, Wf, Without;
    PropsIssue(props, next, known);
    if Without(props, VALUE) == [] {
      OnlyValue(props, next);
    } else {
      WrappedIssues("MS", EncProps(props, next), next, known);
    }
  }

  lemma ObjBodyIssues(v: Value, next: nat, known: set<string>)
    requires v.Object? && Wf(v)
    ensures Issues(EncObjBody(v, next), next, known)
    decreases v, 0
  {
    hide Issues, EncBareValue, EncProps, TypeNameBlock, DisplayBlock, MemberBlock, Without, Silent, NextId, Wf;
    WfProps(v);
    var n := if v.typeNames == [] then next else NextId(next);
    var bare := EncBareValue(v.props, n);
    var last := EncProps(v.props, bare.next).next;
    ObjBodyPieces(v, next);
    TypeNameBlockIssues(v.typeNames, next, known);
    DisplayIsSilent(v.display);
    BareValueIssues(v.props, n, known);
    MembersIssue(v.props, bare.next, known);
    Then(bare, Emitted(MemberBlock(v.props, bare.next), last), n, known);
    SilentThen(DisplayBlock(v.display), Emitted(bare.toks + MemberBlock(v.props, bare.next), last), n, known);
    Then(Emitted(TypeNameBlock(v.typeNames, next), n),
         Emitted(DisplayBlock(v.display) + (bare.toks + MemberBlock(v.props, bare.next)), last), next, known);
  }

  // ---- The codec on whole documents ----

  /** Encoding and decoding gives exactly the normal form, if and only if the value nests within the limit. */
  lemma CodecRoundTrip(v: Value, length: nat)
    requires Wf(v)
    ensures ParseClixml(ToClixml(v), length)
         == if Nesting(v) <= MAX_NESTING_DEPTH then Ok([Norm(v)]) else Err(TooDeep)
  {
    hide ParseDocument, Norm, EncValue, ReferencedIds;
    ValueIssues(v, None, 0, {});
    CleanHasNoReferences(ToClixml(v));
    ReadDocument(Limits(ToClixml(v), length), v);
  }

  /**
   * The documented round trip, to the value with its containers wrapped, is met by exactly the values that nest
   * within the limit and on which the codec does nothing else.
   */
  lemma DocumentedRoundTrip(v: Value, length: nat)
    requires Wf(v)
    ensures ParseClixml(ToClixml(v), length) == Ok([Wrap(v)])
        <==> Nesting(v) <= MAX_NESTING_DEPTH && WrapsOnly(v)
  {
    hide Norm, Wrap, WrapsOnly, Nesting, ParseClixml, ToClixml;
    CodecRoundTrip(v, length);
    NormIsWrap(v);
    assert [Norm(v)] == [Wrap(v)] <==> Norm(v) == Wrap(v) by {
      assert [Norm(v)][0] == Norm(v) && [Wrap(v)][0] == Wrap(v);
    }
  }

  // ---- Settling ----

  /** The normal form is well formed and nests no deeper. */
  lemma {:induction false} NormFits(v: Value)
    requires Wf(v)
    ensures Wf(Norm(v)) && Nesting(Norm(v)) <= Nesting(v)
    decreases v, 1
  {
    hide NormItems, NormEntries, ItemsNesting, EntriesNesting, NormProps, NormValue, ValueNesting, PropsNesting;
    match v
    case List(items) =>
      ItemsFit(items);
      WrappedFits(List(NormItems(items)));
    case Dict(entries) =>
      EntriesFit(entries);
      WrappedFits(Dict(NormEntries(entries)));
    case Object(_, _, _) => ObjectFits(v);
    case _ =>
  }

  lemma ObjectFits(v: Value)
    requires v.Object? && Wf(v)
    ensures Wf(Norm(v)) && Nesting(Norm(v)) <= Nesting(v)
    decreases v, 0
  {
    hide Nesting, Norm, Wf, NormProps, NormValue, ValueNesting, PropsNesting;
    NormObject(v);
    WfProps(v);
    PropsFit(v.props);
    ValueFits(v.props);
    NestingOfObject(v);
    NestingOfObject(Norm(v));
    WfOfObject(Norm(v));
  }

  lemma NormObject(v: Value)
    requires v.Object?
    ensures Norm(v) == Object(v.typeNames, None, if NormProps(v.props) != [] then NormProps(v.props) else NormValue(v.props))
  {
    hide NormProps, NormValue;
  }

  lemma NestingOfObject(v: Value)
    requires v.Object?
    ensures Nesting(v) == 1 + Max(if v.display.Some? then 1 else 0, Max(ValueNesting(v.props), PropsNesting(v.props)))
  {
    hide ValueNesting, PropsNesting;
  }

  lemma WrappedFits(v: Value)
    requires (v.List? || v.Dict?) && Wf(v)
    ensures Wf(Object([], None, [Prop(VALUE, v)])) && Nesting(Object([], None, [Prop(VALUE, v)])) == 1 + BareNesting(v)
  {
    hide BareNesting, Nesting, Wf;
    var props := [Prop(VALUE, v)];
    assert props[1..] == [];
    WfOfObject(Object([], None, props));
    NestingOfObject(Object([], None, props));
  }

  lemma WfOfObject(v: Value)
    requires v.Object? && DistinctNames(v.props) && forall i :: 0 <= i < |v.props| ==> Wf(v.props[i].value)
    ensures Wf(v)
  {
  }

  lemma {:induction false} ItemsFit(items: seq<Value>)
    requires forall i :: 0 <= i < |items| ==> Wf(items[i])
    ensures forall i :: 0 <= i < |items| ==> Wf(NormItems(items)[i])
    ensures ItemsNesting(NormItems(items)) <= ItemsNesting(items)
    decreases items, 0
  {
    hide Norm, Wf, Nesting;
    if items != [] {
      NormFits(items[0]);
      ItemsFit(items[1..]);
      assert NormItems(items)[1..] == NormItems(items[1..]);
    }
  }

  lemma {:induction false} EntriesFit(entries: seq<Entry>)
    requires forall i :: 0 <= i < |entries| ==> Wf(entries[i].key) && Wf(entries[i].val)
    ensures forall i :: 0 <= i < |entries| ==> Wf(NormEntries(entries)[i].key) && Wf(NormEntries(entries)[i].val)
    ensures EntriesNesting(NormEntries(entries)) <= EntriesNesting(entries)
    decreases entries, 0
  {
    hide Wf, NormEntry, EntryNesting;
    if entries != [] {
      EntryFits(entries[0]);
      EntriesFit(entries[1..]);
      assert NormEntries(entries)[1..] == NormEntries(entries[1..]);
    }
  }

  lemma EntryFits(e: Entry)
    requires Wf(e.key) && Wf(e.val)
    ensures Wf(NormEntry(e).key) && Wf(NormEntry(e).val) && EntryNesting(NormEntry(e)) <= EntryNesting(e)
    decreases e, 0
  {
    hide Norm, Wf, Nesting;
    NormFits(e.key);
    NormFits(e.val);
  }

  lemma {:induction false} PropsFit(props: seq<Prop>)
    requires DistinctNames(props) && forall i :: 0 <= i < |props| ==> Wf(props[i].value)
    ensures var r := NormProps(props);
      && DistinctNames(r) && (forall i :: 0 <= i < |r| ==> Wf(r[i].value) && r[i].name != VALUE)
      && (forall i :: 0 <= i < |r| ==> exists j :: 0 <= j < |props| && props[j].name == r[i].name)
      && PropsNesting(r) <= PropsNesting(props) && ValueNesting(r) == 0
    decreases props, 0
  {
    hide Norm, Wf, Nesting, BareNesting;
    if props != [] {
      PropsFit(props[1..]);
      var r := NormProps(props[1..]);
      forall i | 0 <= i < |r| ensures exists j :: 0 < j < |props| && props[j].name == r[i].name {
        var j :| 0 <= j < |props[1..]| && props[1..][j].name == r[i].name;
        assert props[j + 1].name == r[i].name;
      }
      if props[0].name != VALUE {
        NormFits(props[0].value);
        assert NormProps(props)[1..] == r;
      }
    }
  }

  lemma {:induction false} ValueFits(props: seq<Prop>)
    requires forall i :: 0 <= i < |props| ==> Wf(props[i].value)
    ensures var r := NormValue(props);
      && |r| <= 1 && (r != [] ==> Wf(r[0].value))
      && ValueNesting(r) <= ValueNesting(props) && PropsNesting(r) == 0
    decreases props, 0
  {
    hide NormBare, Wf, Nesting, BareNesting;
    if props != [] {
      if props[0].name != VALUE {
        ValueFits(props[1..]);
      } else {
        BareFits(props[0].value);
        assert [Prop(VALUE, NormBare(props[0].value))][1..] == [];
      }
    }
  }

  lemma BareFits(v: Value)
    requires Wf(v)
    ensures Wf(NormBare(v)) && BareNesting(NormBare(v)) <= BareNesting(v)
    decreases v, 2
  {
    hide ItemsNesting, EntriesNesting, NormItems, NormEntries;
    match v
    case List(items) => ItemsFit(items);
    case Dict(entries) => EntriesFit(entries);
    case _ =>
      NormFits(v);
      NormIsBare(v);
  }

  lemma NormIsBare(v: Value)
    requires !v.List? && !v.Dict?
    ensures NormBare(v) == Norm(v) && BareNesting(Norm(v)) == Nesting(Norm(v)) && BareNesting(v) == Nesting(v)
  {
  }

  /** The codec settles after one hop: what was decoded once encodes and decodes to itself. */
  lemma CodecSettles(v: Value, length: nat, again: nat)
    requires Wf(v)
    ensures var r := ParseClixml(ToClixml(v), length);
      r.Ok? ==> |r.value| == 1 && ParseClixml(ToClixml(r.value[0]), again) == r
  {
    hide ParseClixml, Norm, Nesting, Wf;
    CodecRoundTrip(v, length);
    NormFits(v);
    CodecRoundTrip(Norm(v), again);
    NormIdempotent(v);
  }
}
