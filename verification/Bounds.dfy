/** What a document can cost: nesting, the height of what comes out, and the weight of the copies. */
module Bounds {
  import opened Common
  import opened Xml
  import opened Values
  import opened Decoder

  function CopiesWeight(copies: seq<Value>): nat {
    if copies == [] then 0 else CopiesWeight(copies[..|copies| - 1]) + Weight(copies[|copies| - 1])
  }

  /** Every copy handed out or kept is accounted for, at its true weight, within the budget. */
  predicate Accounted(p: Policy, d: Dec) {
    p.Bounded? && p.budget < U64_MAX && d.expanded <= p.budget && d.expanded == CopiesWeight(d.copies)
  }

  lemma BudgetIsBounded(length: nat)
    ensures REF_BUDGET_FLOOR <= RefBudget(length) <= REF_BUDGET_CEILING
  {
  }

  lemma ChargeAccounts(p: Policy, d: Dec, v: Value)
    requires Accounted(p, d)
    ensures var r := Charge(p.budget, d, v);
      && (r.Ok? <==> d.expanded + Weight(v) <= p.budget)
      && (r.Ok? ==> Accounted(p, r.value) && r.value.rest == d.rest)
  {
    hide Weight, Height, Measure;
    MeasureSaturates(v);
    assert (d.copies + [v])[..|d.copies|] == d.copies;
  }

  /** A result that stays within the account and is no higher than `h`. */
  predicate Within(p: Policy, r: Result<Out<Option<Value>>, Fault>, h: int) {
    r.Ok? ==> Accounted(p, r.value.dec) && (r.value.value.Some? ==> Height(r.value.value.value) <= h)
  }

  lemma ResolveIsBounded(p: Policy, d: Dec, attrs: seq<Attr>, depth: nat, level: nat)
    requires Accounted(p, d) && depth <= MAX_NESTING_DEPTH && level <= 1
    ensures var r := ResolveRef(p, d, attrs, depth, level);
      r.Ok? ==> Accounted(p, r.value.dec) && r.value.dec.rest == d.rest
                && (Height(r.value.value) == 0 || depth + level + Height(r.value.value) <= MAX_NESTING_DEPTH)
  {
    hide Weight, Measure, RefIdOf, Accounted, Charge;
    var id := RefIdOf(attrs);
    if id.Ok? && id.value.Some? && id.value.value in d.refs {
      var target := d.refs[id.value.value];
      MeasureSaturates(target);
      BoundedPolicy(p, d);
      ChargeAccounts(p, d, target);
    }
  }

  lemma BoundedPolicy(p: Policy, d: Dec)
    requires Accounted(p, d)
    ensures p.Bounded?
  {
  }

  lemma AccountedAt(p: Policy, d: Dec, rest: seq<Token>, known: map<string, seq<string>>, refs: map<string, Value>)
    requires Accounted(p, d)
    ensures Accounted(p, d.(rest := rest)) && Accounted(p, d.(rest := rest, typeNames := known))
    ensures Accounted(p, d.(refs := refs))
  {
    hide Weight;
  }

  lemma KeepAccounts(p: Policy, d: Dec, id: Option<string>, v: Value)
    requires Accounted(p, d)
    ensures var k := Keep(p, d, id, v); k.Ok? ==> Accounted(p, k.value)
  {
    hide Accounted, Charge;
    BoundedPolicy(p, d);
    ChargeAccounts(p, d, v);
    if id.Some? && Charge(p.budget, d, v).Ok? {
      AccountedAt(p, Charge(p.budget, d, v).value, [], map[], d.refs[id.value := v]);
    }
  }

  /** The height left for a value `depth` elements down. */
  function Room(depth: nat): int {
    2 * (MAX_NESTING_DEPTH - depth)
  }

  lemma EmptyIsBounded(p: Policy, d: Dec, tag: string, attrs: seq<Attr>, depth: nat)
    requires Accounted(p, d) && depth <= MAX_NESTING_DEPTH
    ensures Within(p, ParseEmpty(p, d, tag, attrs, depth), Room(depth))
  {
    hide ResolveRef, Accounted;
    if tag == "Ref" { ResolveIsBounded(p, d, attrs, depth, 1); }
  }

  lemma {:induction false} ItemsHeightAppend(a: seq<Value>, b: seq<Value>)
    ensures ItemsHeight(a + b) == Max(ItemsHeight(a), ItemsHeight(b))
  {
    hide Height;
    if a == [] {
      assert a + b == b;
    } else {
      assert (a + b)[1..] == a[1..] + b;
      ItemsHeightAppend(a[1..], b);
    }
  }

  lemma OneItem(v: Option<Value>)
    ensures ItemsHeight(v.ToSeq()) == if v.Some? then Height(v.value) else 0
  {
    hide Height;
    if v.Some? { assert [v.value][1..] == []; }
  }

  lemma {:induction false} EntriesHeightSnoc(a: seq<Entry>, e: Entry)
    ensures EntriesHeight(a + [e]) == Max(EntriesHeight(a), EntryHeight(e))
  {
    hide EntryHeight;
    if a == [] {
      assert a + [e] == [e] && [e][1..] == [];
    } else {
      assert (a + [e])[1..] == a[1..] + [e];
      EntriesHeightSnoc(a[1..], e);
    }
  }

  lemma {:induction false} InsertHeight(props: seq<Prop>, name: string, v: Value)
    ensures PropsHeight(Insert(props, name, v)) <= Max(PropsHeight(props), Height(v))
  {
    hide Height;
    if props == [] {
      assert [Prop(name, v)][1..] == [];
    } else if props[0].name == name {
      assert Insert(props, name, v)[1..] == props[1..];
    } else {
      assert Insert(props, name, v)[1..] == Insert(props[1..], name, v);
      InsertHeight(props[1..], name, v);
    }
  }

  /** An element `depth` levels down is at most twice as high as the levels left. */
  lemma ElementIsBounded(p: Policy, d: Dec, tag: string, attrs: seq<Attr>, depth: nat)
    requires Accounted(p, d) && depth <= MAX_NESTING_DEPTH
    ensures Within(p, ParseElement(p, d, tag, attrs, depth), Room(depth))
    decreases |d.rest|, 3
  {
    hide ParseInner, Accounted, Height;
    if depth < MAX_NESTING_DEPTH { InnerIsBounded(p, d, tag, attrs, depth + 1); }
  }

  lemma ScalarIsFlat(tag: string, text: string)
    requires IsScalarTag(tag)
    ensures var r := ScalarOf(tag, text); r.Ok? ==> Height(r.value) == 0
  {
    hide IsScalarTag, IntKindOf, TextKindOf, Text.Trim, Text.ParseInt, Text.ParseGuid, Base64.Decode, Lower, BoolOf, CharOf;
  }

  lemma InnerIsBounded(p: Policy, d: Dec, tag: string, attrs: seq<Attr>, depth: nat)
    requires Accounted(p, d) && 0 < depth <= MAX_NESTING_DEPTH
    ensures Within(p, ParseInner(p, d, tag, attrs, depth), Room(depth) + 2)
    decreases |d.rest|, 2
  {
    hide ParseObjBody, ResolveRef, Keep, ReadText, SkipToEnd, ScalarOf, IsScalarTag, RefIdOf, Accounted, Height;
    if tag == "Obj" {
      BodyIsBounded(p, d, depth, Child([], [], None));
      var o := ParseObjBody(p, d, depth, [], [], None);
      if o.Ok? && RefIdOf(attrs).Ok? {
        KeepAccounts(p, o.value.dec, RefIdOf(attrs).value, o.value.value);
      }
    } else if tag == "Ref" {
      ResolveIsBounded(p, d, attrs, depth, 0);
      var v := ResolveRef(p, d, attrs, depth, 0);
      if v.Ok? {
        var s := SkipToEnd(v.value.dec.rest, 1);
        if s.Ok? { AccountedAt(p, v.value.dec, s.value, map[], map[]); }
      }
    } else if IsScalarTag(tag) {
      var t := ReadText(d.rest, tag, "");
      if t.Ok? {
        AccountedAt(p, d, t.value.rest, map[], map[]);
        ScalarIsFlat(tag, t.value.value);
      }
    } else {
      var s := SkipToEnd(d.rest, 1);
      if s.Ok? { AccountedAt(p, d, s.value, map[], map[]); }
    }
  }

  /** What an object body has gathered so far fits `depth` levels down. */
  predicate Fits(c: Child, depth: nat) {
    PropsHeight(c.props) <= Room(depth) && (c.embedded.Some? ==> Height(c.embedded.value) <= Room(depth) + 1)
  }

  lemma FinishFits(c: Child, depth: nat)
    requires Fits(c, depth) && depth <= MAX_NESTING_DEPTH
    ensures Height(Finish(c.names, c.props, c.embedded)) <= Room(depth) + 2
  {
    hide Height;
    if c.embedded.Some? && c.props == [] {
      var one := [Prop(VALUE, c.embedded.value)];
      assert one[1..] == [];
      ObjectHeight(c.names, one);
    } else {
      ObjectHeight(c.names, c.props);
    }
  }

  lemma ObjectHeight(names: seq<string>, props: seq<Prop>)
    ensures Height(Object(names, None, props)) == 1 + PropsHeight(props)
  {
    hide PropsHeight;
  }

  lemma ContainerHeight(items: seq<Value>, entries: seq<Entry>)
    ensures Height(List(items)) == 1 + ItemsHeight(items) && Height(Dict(entries)) == 1 + EntriesHeight(entries)
  {
    hide ItemsHeight, EntriesHeight;
  }

  lemma ChildIsBounded(p: Policy, d: Dec, tag: string, attrs: seq<Attr>, depth: nat, c: Child)
    requires Accounted(p, d) && 0 < depth <= MAX_NESTING_DEPTH && Fits(c, depth)
    ensures var r := ParseChild(p, d, tag, attrs, depth, c);
      r.Ok? ==> Accounted(p, r.value.dec) && Fits(r.value.value, depth)
    decreases |d.rest|, 4
  {
    hide ParseElement, ParseMemberSet, ParseList, ParseDict, ParseTypeNames, SkipToEnd, RefIdOf, Accounted, IsListTag,
         Height, ItemsHeight, PropsHeight, EntriesHeight;
    if tag == "MS" || tag == "Props" {
      MembersAreBounded(p, d, depth, c.props, tag);
    } else if tag == "TN" {
      var t := ParseTypeNames(d.rest, []);
      if t.Ok? && RefIdOf(attrs).Ok? {
        var id := RefIdOf(attrs).value;
        AccountedAt(p, d, t.value.rest, if id.Some? then d.typeNames[id.value := t.value.value] else d.typeNames, map[]);
      }
    } else if tag == "TNRef" {
      var s := SkipToEnd(d.rest, 1);
      if s.Ok? { AccountedAt(p, d, s.value, map[], map[]); }
    } else if IsListTag(tag) {
      NothingIsFlat();
      ListIsBounded(p, d, depth, [], tag);
      var l := ParseList(p, d, depth, [], tag);
      if l.Ok? { ContainerHeight(l.value.value, []); }
    } else if tag == "DCT" {
      NothingIsFlat();
      DictIsBounded(p, d, depth, []);
      var l := ParseDict(p, d, depth, []);
      if l.Ok? { ContainerHeight([], l.value.value); }
    } else {
      ElementIsBounded(p, d, tag, attrs, depth);
    }
  }

  lemma NothingIsFlat()
    ensures ItemsHeight([]) == 0 && EntriesHeight([]) == 0 && PropsHeight([]) == 0 && Height(Null) == 0
  {
  }

  lemma BodyIsBounded(p: Policy, d: Dec, depth: nat, c: Child)
    requires Accounted(p, d) && 0 < depth <= MAX_NESTING_DEPTH && Fits(c, depth)
    ensures var r := ParseObjBody(p, d, depth, c.names, c.props, c.embedded);
      r.Ok? ==> Accounted(p, r.value.dec) && Height(r.value.value) <= Room(depth) + 2
    decreases |d.rest|, 0
  {
    hide ParseChild, RefIdOf, Accounted, Finish, Height, PropsHeight;
    if d.rest != [] {
      var after := d.(rest := d.rest[1..]);
      AccountedAt(p, d, d.rest[1..], map[], map[]);
      match d.rest[0]
      case Bad =>
      case Start(tag, attrs) =>
        ChildIsBounded(p, after, tag, attrs, depth, c);
        var r := ParseChild(p, after, tag, attrs, depth, c);
        if r.Ok? { BodyIsBounded(p, r.value.dec, depth, r.value.value); }
      case Empty(tag, attrs) =>
        if tag == "TNRef" && RefIdOf(attrs).Ok? {
          BodyIsBounded(p, after, depth, c.(names := NamesOf(d, RefIdOf(attrs).value, c.names)));
        } else if tag != "TNRef" {
          BodyIsBounded(p, after, depth, c);
        }
      case End(tag) =>
        if tag == "Obj" { FinishFits(c, depth); } else { BodyIsBounded(p, after, depth, c); }
      case _ => BodyIsBounded(p, after, depth, c);
    }
  }

  lemma EmptyMemberIsBounded(p: Policy, d: Dec, tag: string, attrs: seq<Attr>, depth: nat, props: seq<Prop>)
    requires Accounted(p, d) && depth <= MAX_NESTING_DEPTH && PropsHeight(props) <= Room(depth)
    ensures var r := EmptyMember(p, d, tag, attrs, depth, props);
      r.Ok? ==> Accounted(p, r.value.dec) && PropsHeight(r.value.value) <= Room(depth)
  {
    hide ParseEmpty, NameOf, Insert, Accounted, Height, PropsHeight;
    NothingIsFlat();
    EmptyIsBounded(p, d, tag, attrs, depth);
    var v := ParseEmpty(p, d, tag, attrs, depth);
    if NameOf(attrs).Ok? {
      var name := NameOf(attrs).value.UnwrapOr("");
      InsertHeight(props, name, Null);
      if v.Ok? && v.value.value.Some? { InsertHeight(props, name, v.value.value.value); }
    }
  }

  lemma MembersAreBounded(p: Policy, d: Dec, depth: nat, props: seq<Prop>, closing: string)
    requires Accounted(p, d) && 0 < depth <= MAX_NESTING_DEPTH && PropsHeight(props) <= Room(depth)
    ensures var r := ParseMemberSet(p, d, depth, props, closing);
      r.Ok? ==> Accounted(p, r.value.dec) && PropsHeight(r.value.value) <= Room(depth)
    decreases |d.rest|, 0
  {
    hide ParseElement, EmptyMember, NameOrEmpty, Accounted, Insert, Height, PropsHeight;
    if d.rest != [] {
      var after := d.(rest := d.rest[1..]);
      AccountedAt(p, d, d.rest[1..], map[], map[]);
      match d.rest[0]
      case Bad =>
      case Start(tag, attrs) =>
        ElementIsBounded(p, after, tag, attrs, depth);
        var r := ParseElement(p, after, tag, attrs, depth);
        if r.Ok? && NameOrEmpty(attrs).Ok? {
          var name := NameOrEmpty(attrs).value;
          if r.value.value.Some? {
            InsertHeight(props, name, r.value.value.value);
            MembersAreBounded(p, r.value.dec, depth, Insert(props, name, r.value.value.value), closing);
          } else {
            MembersAreBounded(p, r.value.dec, depth, props, closing);
          }
        }
      case Empty(tag, attrs) =>
        EmptyMemberIsBounded(p, after, tag, attrs, depth, props);
        EmptyMemberKeepsRest(p, after, tag, attrs, depth, props);
        var r := EmptyMember(p, after, tag, attrs, depth, props);
        if r.Ok? { MembersAreBounded(p, r.value.dec, depth, r.value.value, closing); }
      case End(tag) => if tag != closing { MembersAreBounded(p, after, depth, props, closing); }
      case _ => MembersAreBounded(p, after, depth, props, closing);
    }
  }

  lemma ListIsBounded(p: Policy, d: Dec, depth: nat, items: seq<Value>, closing: string)
    requires Accounted(p, d) && 0 < depth <= MAX_NESTING_DEPTH && ItemsHeight(items) <= Room(depth)
    ensures var r := ParseList(p, d, depth, items, closing);
      r.Ok? ==> Accounted(p, r.value.dec) && ItemsHeight(r.value.value) <= Room(depth)
    decreases |d.rest|, 0
  {
    hide ParseElement, ParseEmpty, Accounted, Height, ItemsHeight;
    if d.rest != [] {
      var after := d.(rest := d.rest[1..]);
      AccountedAt(p, d, d.rest[1..], map[], map[]);
      match d.rest[0]
      case Bad =>
      case Start(tag, attrs) =>
        ElementIsBounded(p, after, tag, attrs, depth);
        var r := ParseElement(p, after, tag, attrs, depth);
        if r.Ok? {
          OneItem(r.value.value);
          ItemsHeightAppend(items, r.value.value.ToSeq());
          ListIsBounded(p, r.value.dec, depth, items + r.value.value.ToSeq(), closing);
        }
      case Empty(tag, attrs) =>
        EmptyIsBounded(p, after, tag, attrs, depth);
        ParseEmptyKeepsRest(p, after, tag, attrs, depth);
        var r := ParseEmpty(p, after, tag, attrs, depth);
        if r.Ok? {
          OneItem(r.value.value);
          ItemsHeightAppend(items, r.value.value.ToSeq());
          ListIsBounded(p, r.value.dec, depth, items + r.value.value.ToSeq(), closing);
        }
      case End(tag) => if tag != closing { ListIsBounded(p, after, depth, items, closing); }
      case _ => ListIsBounded(p, after, depth, items, closing);
    }
  }

  lemma DictIsBounded(p: Policy, d: Dec, depth: nat, entries: seq<Entry>)
    requires Accounted(p, d) && 0 < depth <= MAX_NESTING_DEPTH && EntriesHeight(entries) <= Room(depth)
    ensures var r := ParseDict(p, d, depth, entries);
      r.Ok? ==> Accounted(p, r.value.dec) && EntriesHeight(r.value.value) <= Room(depth)
    decreases |d.rest|, 0
  {
    hide ParseDictEntry, Accounted, EntryHeight, EntriesHeight;
    if d.rest != [] {
      var after := d.(rest := d.rest[1..]);
      AccountedAt(p, d, d.rest[1..], map[], map[]);
      match d.rest[0]
      case Bad =>
      case Start(tag, _) =>
        if tag == "En" {
          BlankEntry();
          EntryIsBounded(p, after, depth, Entry(Null, Null));
          var r := ParseDictEntry(p, after, depth, Entry(Null, Null));
          if r.Ok? {
            EntriesHeightSnoc(entries, r.value.value);
            DictIsBounded(p, r.value.dec, depth, entries + [r.value.value]);
          }
        } else {
          DictIsBounded(p, after, depth, entries);
        }
      case End(tag) => if tag != "DCT" { DictIsBounded(p, after, depth, entries); }
      case _ => DictIsBounded(p, after, depth, entries);
    }
  }

  lemma BlankEntry()
    ensures EntryHeight(Entry(Null, Null)) == 0
  {
  }

  lemma SetEntryHeight(e: Entry, name: string, v: Value)
    ensures EntryHeight(SetEntry(e, name, v)) <= Max(EntryHeight(e), Height(v))
  {
    hide Height;
  }

  lemma EmptyEntryIsBounded(p: Policy, d: Dec, tag: string, attrs: seq<Attr>, depth: nat, e: Entry)
    requires Accounted(p, d) && depth <= MAX_NESTING_DEPTH && EntryHeight(e) <= Room(depth)
    ensures var r := EmptyEntry(p, d, tag, attrs, depth, e);
      r.Ok? ==> Accounted(p, r.value.dec) && EntryHeight(r.value.value) <= Room(depth)
  {
    hide ParseEmpty, NameOf, SetEntry, Accounted, Height, EntryHeight;
    EmptyIsBounded(p, d, tag, attrs, depth);
    var v := ParseEmpty(p, d, tag, attrs, depth);
    if NameOf(attrs).Ok? && v.Ok? && v.value.value.Some? {
      SetEntryHeight(e, NameOf(attrs).value.UnwrapOr(""), v.value.value.value);
    }
  }

  lemma EntryIsBounded(p: Policy, d: Dec, depth: nat, e: Entry)
    requires Accounted(p, d) && 0 < depth <= MAX_NESTING_DEPTH && EntryHeight(e) <= Room(depth)
    ensures var r := ParseDictEntry(p, d, depth, e);
      r.Ok? ==> Accounted(p, r.value.dec) && EntryHeight(r.value.value) <= Room(depth)
    decreases |d.rest|, 0
  {
    hide ParseElement, EmptyEntry, NameOrEmpty, Accounted, SetEntry, Height, EntryHeight;
    if d.rest != [] {
      var after := d.(rest := d.rest[1..]);
      AccountedAt(p, d, d.rest[1..], map[], map[]);
      match d.rest[0]
      case Bad =>
      case Start(tag, attrs) =>
        ElementIsBounded(p, after, tag, attrs, depth);
        var r := ParseElement(p, after, tag, attrs, depth);
        if r.Ok? && NameOrEmpty(attrs).Ok? {
          if r.value.value.Some? {
            SetEntryHeight(e, NameOrEmpty(attrs).value, r.value.value.value);
            EntryIsBounded(p, r.value.dec, depth, SetEntry(e, NameOrEmpty(attrs).value, r.value.value.value));
          } else {
            EntryIsBounded(p, r.value.dec, depth, e);
          }
        }
      case Empty(tag, attrs) =>
        EmptyEntryIsBounded(p, after, tag, attrs, depth, e);
        EmptyEntryKeepsRest(p, after, tag, attrs, depth, e);
        var r := EmptyEntry(p, after, tag, attrs, depth, e);
        if r.Ok? { EntryIsBounded(p, r.value.dec, depth, r.value.value); }
      case End(tag) => if tag != "En" { EntryIsBounded(p, after, depth, e); }
      case _ => EntryIsBounded(p, after, depth, e);
    }
  }

  lemma {:induction false} DocumentIsBounded(p: Policy, d: Dec, values: seq<Value>)
    requires Accounted(p, d) && ItemsHeight(values) <= Room(0)
    ensures var r := ParseDocument(p, d, values);
      r.Ok? ==> Accounted(p, r.value.dec) && ItemsHeight(r.value.value) <= Room(0)
    decreases |d.rest|
  {
    hide ParseElement, ParseEmpty, Accounted, Height, ItemsHeight;
    if d.rest != [] {
      var after := d.(rest := d.rest[1..]);
      AccountedAt(p, d, d.rest[1..], map[], map[]);
      match d.rest[0]
      case Bad =>
      case Start(tag, attrs) =>
        ElementIsBounded(p, after, tag, attrs, 0);
        var r := ParseElement(p, after, tag, attrs, 0);
        if r.Ok? {
          OneItem(r.value.value);
          ItemsHeightAppend(values, r.value.value.ToSeq());
          DocumentIsBounded(p, r.value.dec, values + r.value.value.ToSeq());
        }
      case Empty(tag, attrs) =>
        EmptyIsBounded(p, after, tag, attrs, 0);
        ParseEmptyKeepsRest(p, after, tag, attrs, 0);
        var r := ParseEmpty(p, after, tag, attrs, 0);
        if r.Ok? {
          OneItem(r.value.value);
          ItemsHeightAppend(values, r.value.value.ToSeq());
          DocumentIsBounded(p, r.value.dec, values + r.value.value.ToSeq());
        }
      case _ => DocumentIsBounded(p, after, values);
    }
  }

  /** Whatever the document, no value that comes out is higher than twice the nesting limit. */
  lemma DecodedHeight(toks: seq<Token>, length: nat)
    ensures var r := ParseClixml(toks, length); r.Ok? ==> ItemsHeight(r.value) <= 2 * MAX_NESTING_DEPTH
  {
    hide ParseDocument, ReferencedIds, ItemsHeight;
    BudgetIsBounded(length);
    NothingIsFlat();
    DocumentIsBounded(Limits(toks, length), Fresh(toks), []);
  }
}
