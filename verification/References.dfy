/** The reference table is a sound cache: pre-scan, budget and depth check only ever refuse. */
module References {
  import opened Common
  import opened Xml
  import opened Values
  import opened Decoder

  /**
   * The same place in the document, the same type names, and the same objects under every id that is
   * referenced; every reference still ahead names such an id.
   */
  predicate Agree(p: Policy, a: Dec, b: Dec) {
    && p.Bounded? && a.rest == b.rest && a.typeNames == b.typeNames
    && ReferencedIds(a.rest) <= p.referenced
    && forall id :: id in p.referenced ==>
         (id in a.refs <==> id in b.refs) && (id in a.refs ==> a.refs[id] == b.refs[id])
  }

  /** Refused for its references alone. */
  predicate Refused(e: Fault) {
    e == RefTooDeep || e == RefBudgetSpent
  }

  /** The bounded reading gives what the plain one gives, a fault included, unless it refuses a reference. */
  predicate Matches<T(==)>(p: Policy, bounded: Result<Out<T>, Fault>, plain: Result<Out<T>, Fault>) {
    match bounded
    case Ok(o) => plain.Ok? && plain.value.value == o.value && Agree(p, o.dec, plain.value.dec)
    case Err(e) => Refused(e) || plain == Err(e)
  }

  lemma Ahead(toks: seq<Token>)
    requires toks != [] && !toks[0].Bad?
    ensures IdsOf(toks[0]) <= ReferencedIds(toks) && ReferencedIds(toks[1..]) <= ReferencedIds(toks)
  {
    hide IdsOf;
  }

  lemma AgreeNext(p: Policy, a: Dec, b: Dec)
    requires Agree(p, a, b) && a.rest != [] && !a.rest[0].Bad?
    ensures Agree(p, a.(rest := a.rest[1..]), b.(rest := b.rest[1..]))
  {
    hide ReferencedIds;
    Ahead(a.rest);
  }

  lemma AgreeAt(p: Policy, a: Dec, b: Dec, rest: seq<Token>)
    requires Agree(p, a, b) && ReferencedIds(rest) <= ReferencedIds(a.rest)
    ensures Agree(p, a.(rest := rest), b.(rest := rest))
  {
    hide ReferencedIds;
  }

  lemma {:induction false} TextAhead(rest: seq<Token>, closing: string, out: string)
    ensures var r := ReadText(rest, closing, out); r.Ok? ==> ReferencedIds(r.value.rest) <= ReferencedIds(rest)
    decreases |rest|
  {
    hide ReferencedIds, Escapes.Decode, Escapes.Resolve;
    if rest != [] && !rest[0].Bad? {
      Ahead(rest);
      match rest[0]
      case Chars(t) => TextAhead(rest[1..], closing, out + t);
      case CData(t) => TextAhead(rest[1..], closing, out + t);
      case Ref(name) =>
        if Escapes.Resolve(name).Some? { TextAhead(rest[1..], closing, out + [Escapes.Resolve(name).value]); }
      case Bad =>
      case _ => TextAhead(rest[1..], closing, out);
    }
  }

  lemma {:induction false} SkipAhead(rest: seq<Token>, depth: nat)
    ensures var r := SkipToEnd(rest, depth); r.Ok? ==> ReferencedIds(r.value) <= ReferencedIds(rest)
    decreases |rest|
  {
    hide ReferencedIds;
    if rest != [] && !rest[0].Bad? {
      Ahead(rest);
      match rest[0]
      case Start(_, _) => SkipAhead(rest[1..], depth + 1);
      case End(_) => if depth > 1 { SkipAhead(rest[1..], depth - 1); }
      case Bad =>
      case _ => SkipAhead(rest[1..], depth);
    }
  }

  lemma {:induction false} TypeNamesAhead(rest: seq<Token>, names: seq<string>)
    ensures var r := ParseTypeNames(rest, names); r.Ok? ==> ReferencedIds(r.value.rest) <= ReferencedIds(rest)
    decreases |rest|
  {
    hide ReferencedIds, ReadText;
    if rest != [] && !rest[0].Bad? {
      Ahead(rest);
      match rest[0]
      case Start(tag, _) =>
        if tag == "T" {
          TextAhead(rest[1..], "T", "");
          var t := ReadText(rest[1..], "T", "");
          if t.Ok? { TypeNamesAhead(t.value.rest, names + [t.value.value]); }
        } else {
          TypeNamesAhead(rest[1..], names);
        }
      case Bad =>
      case _ => TypeNamesAhead(rest[1..], names);
    }
  }

  predicate Known(p: Policy, attrs: seq<Attr>) {
    p.Bounded? && (RefIdOf(attrs).Ok? && RefIdOf(attrs).value.Some? ==> RefIdOf(attrs).value.value in p.referenced)
  }

  lemma KnownAhead(p: Policy, a: Dec)
    requires p.Bounded? && ReferencedIds(a.rest) <= p.referenced && a.rest != []
    requires (a.rest[0].Start? || a.rest[0].Empty?) && a.rest[0].tag == "Ref"
    ensures Known(p, a.rest[0].attrs)
  {
    hide RefIdOf;
    Ahead(a.rest);
  }

  lemma ResolveAgrees(p: Policy, a: Dec, b: Dec, attrs: seq<Attr>, depth: nat, level: nat)
    requires Agree(p, a, b) && Known(p, attrs)
    ensures Matches(p, ResolveRef(p, a, attrs, depth, level), ResolveRef(Unbounded, b, attrs, depth, level))
  {
    hide Measure, ReferencedIds, RefIdOf;
  }

  lemma KeepAgrees(p: Policy, a: Dec, b: Dec, id: Option<string>, v: Value)
    requires Agree(p, a, b)
    ensures var k := Keep(p, a, id, v);
      && (k.Ok? ==> Keep(Unbounded, b, id, v).Ok? && Agree(p, k.value, Keep(Unbounded, b, id, v).value))
      && (k.Err? ==> Refused(k.error))
  {
    hide Measure, ReferencedIds;
  }

  lemma EmptyAgrees(p: Policy, a: Dec, b: Dec, tag: string, attrs: seq<Attr>, depth: nat)
    requires Agree(p, a, b) && (tag == "Ref" ==> Known(p, attrs))
    ensures Matches(p, ParseEmpty(p, a, tag, attrs, depth), ParseEmpty(Unbounded, b, tag, attrs, depth))
  {
    hide ResolveRef, Agree;
    if tag == "Ref" { ResolveAgrees(p, a, b, attrs, depth, 1); }
  }

  /** An element. */
  lemma ElementAgrees(p: Policy, a: Dec, b: Dec, tag: string, attrs: seq<Attr>, depth: nat)
    requires Agree(p, a, b) && (tag == "Ref" ==> Known(p, attrs))
    ensures Matches(p, ParseElement(p, a, tag, attrs, depth), ParseElement(Unbounded, b, tag, attrs, depth))
    decreases |a.rest|, 3
  {
    hide ParseInner, Agree;
    InnerAgrees(p, a, b, tag, attrs, depth + 1);
  }

  lemma InnerAgrees(p: Policy, a: Dec, b: Dec, tag: string, attrs: seq<Attr>, depth: nat)
    requires Agree(p, a, b) && (tag == "Ref" ==> Known(p, attrs))
    ensures Matches(p, ParseInner(p, a, tag, attrs, depth), ParseInner(Unbounded, b, tag, attrs, depth))
    decreases |a.rest|, 2
  {
    hide ParseObjBody, ResolveRef, Keep, ReadText, SkipToEnd, ScalarOf, IsScalarTag, RefIdOf, ReferencedIds, Agree;
    RestAgrees(p, a, b);
    if tag == "Obj" {
      BodyAgrees(p, a, b, depth, [], [], None);
      var o := ParseObjBody(p, a, depth, [], [], None);
      if o.Ok? && RefIdOf(attrs).Ok? {
        KeepAgrees(p, o.value.dec, ParseObjBody(Unbounded, b, depth, [], [], None).value.dec,
                   RefIdOf(attrs).value, o.value.value);
      }
    } else if tag == "Ref" {
      ResolveAgrees(p, a, b, attrs, depth, 0);
      var v := ResolveRef(p, a, attrs, depth, 0);
      if v.Ok? {
        var w := ResolveRef(Unbounded, b, attrs, depth, 0);
        RestAgrees(p, v.value.dec, w.value.dec);
        SkipAhead(v.value.dec.rest, 1);
        var s := SkipToEnd(v.value.dec.rest, 1);
        if s.Ok? { AgreeAt(p, v.value.dec, w.value.dec, s.value); }
      }
    } else if IsScalarTag(tag) {
      TextAhead(a.rest, tag, "");
      var t := ReadText(a.rest, tag, "");
      if t.Ok? { AgreeAt(p, a, b, t.value.rest); }
    } else {
      SkipAhead(a.rest, 1);
      var s := SkipToEnd(a.rest, 1);
      if s.Ok? { AgreeAt(p, a, b, s.value); }
    }
  }

  lemma RestAgrees(p: Policy, a: Dec, b: Dec)
    requires Agree(p, a, b)
    ensures a.rest == b.rest && a.typeNames == b.typeNames && p.Bounded? && ReferencedIds(a.rest) <= p.referenced
  {
    hide ReferencedIds;
  }

  lemma NamesAgree(p: Policy, a: Dec, b: Dec, rest: seq<Token>, known: map<string, seq<string>>)
    requires Agree(p, a, b) && ReferencedIds(rest) <= ReferencedIds(a.rest)
    ensures Agree(p, a.(rest := rest, typeNames := known), b.(rest := rest, typeNames := known))
  {
    hide ReferencedIds;
  }

  lemma ChildAgrees(p: Policy, a: Dec, b: Dec, tag: string, attrs: seq<Attr>, depth: nat, c: Child)
    requires Agree(p, a, b) && (tag == "Ref" ==> Known(p, attrs))
    ensures Matches(p, ParseChild(p, a, tag, attrs, depth, c), ParseChild(Unbounded, b, tag, attrs, depth, c))
    decreases |a.rest|, 4
  {
    hide ParseElement, ParseMemberSet, ParseList, ParseDict, ParseTypeNames, SkipToEnd, RefIdOf, ReferencedIds, Agree,
         IsListTag;
    RestAgrees(p, a, b);
    if tag == "MS" || tag == "Props" {
      MembersAgree(p, a, b, depth, c.props, tag);
    } else if tag == "TN" {
      TypeNamesAhead(a.rest, []);
      var t := ParseTypeNames(a.rest, []);
      if t.Ok? && RefIdOf(attrs).Ok? {
        var id := RefIdOf(attrs).value;
        NamesAgree(p, a, b, t.value.rest, if id.Some? then a.typeNames[id.value := t.value.value] else a.typeNames);
      }
    } else if tag == "TNRef" {
      SkipAhead(a.rest, 1);
      var s := SkipToEnd(a.rest, 1);
      if s.Ok? { AgreeAt(p, a, b, s.value); }
    } else if IsListTag(tag) {
      ListAgrees(p, a, b, depth, [], tag);
    } else if tag == "DCT" {
      DictAgrees(p, a, b, depth, []);
    } else {
      ElementAgrees(p, a, b, tag, attrs, depth);
    }
  }

  lemma BodyAgrees(p: Policy, a: Dec, b: Dec, depth: nat, names: seq<string>, props: seq<Prop>, embedded: Option<Value>)
    requires Agree(p, a, b)
    ensures Matches(p, ParseObjBody(p, a, depth, names, props, embedded),
                    ParseObjBody(Unbounded, b, depth, names, props, embedded))
    decreases |a.rest|, 0
  {
    hide ParseChild, RefIdOf, ReferencedIds, Agree, Finish;
    RestAgrees(p, a, b);
    if a.rest != [] && !a.rest[0].Bad? {
      var a', b' := a.(rest := a.rest[1..]), b.(rest := b.rest[1..]);
      AgreeNext(p, a, b);
      match a.rest[0]
      case Start(tag, attrs) =>
        if tag == "Ref" { KnownAhead(p, a); }
        var c := Child(names, props, embedded);
        ChildAgrees(p, a', b', tag, attrs, depth, c);
        var r := ParseChild(p, a', tag, attrs, depth, c);
        if r.Ok? {
          var s := ParseChild(Unbounded, b', tag, attrs, depth, c);
          BodyAgrees(p, r.value.dec, s.value.dec, depth, r.value.value.names, r.value.value.props, r.value.value.embedded);
        }
      case Empty(tag, attrs) =>
        if tag == "TNRef" && RefIdOf(attrs).Ok? {
          BodyAgrees(p, a', b', depth, NamesOf(a, RefIdOf(attrs).value, names), props, embedded);
        } else if tag != "TNRef" {
          BodyAgrees(p, a', b', depth, names, props, embedded);
        }
      case End(tag) => if tag != "Obj" { BodyAgrees(p, a', b', depth, names, props, embedded); }
      case Bad =>
      case _ => BodyAgrees(p, a', b', depth, names, props, embedded);
    }
  }

  lemma EmptyMemberAgrees(p: Policy, a: Dec, b: Dec, tag: string, attrs: seq<Attr>, depth: nat, props: seq<Prop>)
    requires Agree(p, a, b) && (tag == "Ref" ==> Known(p, attrs))
    ensures Matches(p, EmptyMember(p, a, tag, attrs, depth, props), EmptyMember(Unbounded, b, tag, attrs, depth, props))
  {
    hide ParseEmpty, Agree, NameOf, Insert;
    EmptyAgrees(p, a, b, tag, attrs, depth);
  }

  lemma MembersAgree(p: Policy, a: Dec, b: Dec, depth: nat, props: seq<Prop>, closing: string)
    requires Agree(p, a, b)
    ensures Matches(p, ParseMemberSet(p, a, depth, props, closing), ParseMemberSet(Unbounded, b, depth, props, closing))
    decreases |a.rest|, 0
  {
    hide ParseElement, EmptyMember, NameOrEmpty, ReferencedIds, Agree, Insert;
    RestAgrees(p, a, b);
    if a.rest != [] && !a.rest[0].Bad? {
      var a', b' := a.(rest := a.rest[1..]), b.(rest := b.rest[1..]);
      AgreeNext(p, a, b);
      match a.rest[0]
      case Start(tag, attrs) =>
        if tag == "Ref" { KnownAhead(p, a); }
        ElementAgrees(p, a', b', tag, attrs, depth);
        var r := ParseElement(p, a', tag, attrs, depth);
        if r.Ok? && NameOrEmpty(attrs).Ok? {
          var s := ParseElement(Unbounded, b', tag, attrs, depth);
          MembersAgree(p, r.value.dec, s.value.dec, depth,
                       if r.value.value.Some? then Insert(props, NameOrEmpty(attrs).value, r.value.value.value) else props,
                       closing);
        }
      case Empty(tag, attrs) =>
        if tag == "Ref" { KnownAhead(p, a); }
        EmptyMemberAgrees(p, a', b', tag, attrs, depth, props);
        EmptyMemberKeepsRest(p, a', tag, attrs, depth, props);
        var r := EmptyMember(p, a', tag, attrs, depth, props);
        if r.Ok? {
          var s := EmptyMember(Unbounded, b', tag, attrs, depth, props);
          MembersAgree(p, r.value.dec, s.value.dec, depth, r.value.value, closing);
        }
      case End(tag) => if tag != closing { MembersAgree(p, a', b', depth, props, closing); }
      case Bad =>
      case _ => MembersAgree(p, a', b', depth, props, closing);
    }
  }

  lemma ListAgrees(p: Policy, a: Dec, b: Dec, depth: nat, items: seq<Value>, closing: string)
    requires Agree(p, a, b)
    ensures Matches(p, ParseList(p, a, depth, items, closing), ParseList(Unbounded, b, depth, items, closing))
    decreases |a.rest|, 0
  {
    hide ParseElement, ParseEmpty, ReferencedIds, Agree;
    RestAgrees(p, a, b);
    if a.rest != [] && !a.rest[0].Bad? {
      var a', b' := a.(rest := a.rest[1..]), b.(rest := b.rest[1..]);
      AgreeNext(p, a, b);
      match a.rest[0]
      case Start(tag, attrs) =>
        if tag == "Ref" { KnownAhead(p, a); }
        ElementAgrees(p, a', b', tag, attrs, depth);
        var r := ParseElement(p, a', tag, attrs, depth);
        if r.Ok? {
          var s := ParseElement(Unbounded, b', tag, attrs, depth);
          ListAgrees(p, r.value.dec, s.value.dec, depth, items + r.value.value.ToSeq(), closing);
        }
      case Empty(tag, attrs) =>
        if tag == "Ref" { KnownAhead(p, a); }
        EmptyAgrees(p, a', b', tag, attrs, depth);
        ParseEmptyKeepsRest(p, a', tag, attrs, depth);
        var r := ParseEmpty(p, a', tag, attrs, depth);
        if r.Ok? {
          var s := ParseEmpty(Unbounded, b', tag, attrs, depth);
          ListAgrees(p, r.value.dec, s.value.dec, depth, items + r.value.value.ToSeq(), closing);
        }
      case End(tag) => if tag != closing { ListAgrees(p, a', b', depth, items, closing); }
      case Bad =>
      case _ => ListAgrees(p, a', b', depth, items, closing);
    }
  }

  lemma DictAgrees(p: Policy, a: Dec, b: Dec, depth: nat, entries: seq<Entry>)
    requires Agree(p, a, b)
    ensures Matches(p, ParseDict(p, a, depth, entries), ParseDict(Unbounded, b, depth, entries))
    decreases |a.rest|, 0
  {
    hide ParseDictEntry, ReferencedIds, Agree;
    RestAgrees(p, a, b);
    if a.rest != [] && !a.rest[0].Bad? {
      var a', b' := a.(rest := a.rest[1..]), b.(rest := b.rest[1..]);
      AgreeNext(p, a, b);
      match a.rest[0]
      case Start(tag, _) =>
        if tag == "En" {
          EntryAgrees(p, a', b', depth, Entry(Null, Null));
          var r := ParseDictEntry(p, a', depth, Entry(Null, Null));
          if r.Ok? {
            var s := ParseDictEntry(Unbounded, b', depth, Entry(Null, Null));
            DictAgrees(p, r.value.dec, s.value.dec, depth, entries + [r.value.value]);
          }
        } else {
          DictAgrees(p, a', b', depth, entries);
        }
      case End(tag) => if tag != "DCT" { DictAgrees(p, a', b', depth, entries); }
      case Bad =>
      case _ => DictAgrees(p, a', b', depth, entries);
    }
  }

  lemma EmptyEntryAgrees(p: Policy, a: Dec, b: Dec, tag: string, attrs: seq<Attr>, depth: nat, e: Entry)
    requires Agree(p, a, b) && (tag == "Ref" ==> Known(p, attrs))
    ensures Matches(p, EmptyEntry(p, a, tag, attrs, depth, e), EmptyEntry(Unbounded, b, tag, attrs, depth, e))
  {
    hide ParseEmpty, Agree, NameOf, SetEntry;
    EmptyAgrees(p, a, b, tag, attrs, depth);
  }

  lemma EntryAgrees(p: Policy, a: Dec, b: Dec, depth: nat, e: Entry)
    requires Agree(p, a, b)
    ensures Matches(p, ParseDictEntry(p, a, depth, e), ParseDictEntry(Unbounded, b, depth, e))
    decreases |a.rest|, 0
  {
    hide ParseElement, EmptyEntry, NameOrEmpty, ReferencedIds, Agree, SetEntry;
    RestAgrees(p, a, b);
    if a.rest != [] && !a.rest[0].Bad? {
      var a', b' := a.(rest := a.rest[1..]), b.(rest := b.rest[1..]);
      AgreeNext(p, a, b);
      match a.rest[0]
      case Start(tag, attrs) =>
        if tag == "Ref" { KnownAhead(p, a); }
        ElementAgrees(p, a', b', tag, attrs, depth);
        var r := ParseElement(p, a', tag, attrs, depth);
        if r.Ok? && NameOrEmpty(attrs).Ok? {
          var s := ParseElement(Unbounded, b', tag, attrs, depth);
          EntryAgrees(p, r.value.dec, s.value.dec, depth,
                      if r.value.value.Some? then SetEntry(e, NameOrEmpty(attrs).value, r.value.value.value) else e);
        }
      case Empty(tag, attrs) =>
        if tag == "Ref" { KnownAhead(p, a); }
        EmptyEntryAgrees(p, a', b', tag, attrs, depth, e);
        EmptyEntryKeepsRest(p, a', tag, attrs, depth, e);
        var r := EmptyEntry(p, a', tag, attrs, depth, e);
        if r.Ok? {
          var s := EmptyEntry(Unbounded, b', tag, attrs, depth, e);
          EntryAgrees(p, r.value.dec, s.value.dec, depth, r.value.value);
        }
      case End(tag) => if tag != "En" { EntryAgrees(p, a', b', depth, e); }
      case Bad =>
      case _ => EntryAgrees(p, a', b', depth, e);
    }
  }

  lemma {:induction false} DocumentAgrees(p: Policy, a: Dec, b: Dec, values: seq<Value>)
    requires Agree(p, a, b)
    ensures Matches(p, ParseDocument(p, a, values), ParseDocument(Unbounded, b, values))
    decreases |a.rest|
  {
    hide ParseElement, ParseEmpty, ReferencedIds, Agree;
    RestAgrees(p, a, b);
    if a.rest != [] && !a.rest[0].Bad? {
      var a', b' := a.(rest := a.rest[1..]), b.(rest := b.rest[1..]);
      AgreeNext(p, a, b);
      match a.rest[0]
      case Start(tag, attrs) =>
        if tag == "Ref" { KnownAhead(p, a); }
        ElementAgrees(p, a', b', tag, attrs, 0);
        var r := ParseElement(p, a', tag, attrs, 0);
        if r.Ok? {
          var s := ParseElement(Unbounded, b', tag, attrs, 0);
          DocumentAgrees(p, r.value.dec, s.value.dec, values + r.value.value.ToSeq());
        }
      case Empty(tag, attrs) =>
        if tag == "Ref" { KnownAhead(p, a); }
        EmptyAgrees(p, a', b', tag, attrs, 0);
        ParseEmptyKeepsRest(p, a', tag, attrs, 0);
        var r := ParseEmpty(p, a', tag, attrs, 0);
        if r.Ok? {
          var s := ParseEmpty(Unbounded, b', tag, attrs, 0);
          DocumentAgrees(p, r.value.dec, s.value.dec, values + r.value.value.ToSeq());
        }
      case Bad =>
      case _ => DocumentAgrees(p, a', b', values);
    }
  }

  /**
   * Keeping only referenced objects, within a budget, never changes what a document decodes to, nor the fault
   * it fails with: it can only refuse a reference.
   */
  lemma ReferenceTableIsSound(toks: seq<Token>, length: nat)
    ensures var r := ParseClixml(toks, length); r == ParsePlainly(toks) || (r.Err? && Refused(r.error))
  {
    hide ParseDocument, ReferencedIds;
    DocumentAgrees(Limits(toks, length), Fresh(toks), Fresh(toks), []);
  }
}
