/** Decoding what the encoder wrote gives the normal form, exactly when the value nests within the limit. */
module RoundTrip {
  import opened Common
  import opened Text
  import opened Escapes
  import opened Xml
  import opened Values
  import opened Encoder
  import opened Decoder
  import Base64

  // ---- Nesting ----

  /** The nested `parse_element` calls that reading an encoded value takes. */
  function Nesting(v: Value): nat
    decreases v, 1
  {
    match v
    case Null => 0
    case List(items) => 1 + ItemsNesting(items)
    case Dict(entries) => 1 + EntriesNesting(entries)
    case Object(_, display, props) =>
      1 + Max(if display.Some? then 1 else 0, Max(ValueNesting(props), PropsNesting(props)))
    case _ => 1
  }

  /** A container under `_value` has no element of its own. */
  function BareNesting(v: Value): nat
    decreases v, 2
  {
    match v
    case List(items) => ItemsNesting(items)
    case Dict(entries) => EntriesNesting(entries)
    case _ => Nesting(v)
  }

  function ItemsNesting(items: seq<Value>): nat
    decreases items, 0
  {
    if items == [] then 0 else Max(Nesting(items[0]), ItemsNesting(items[1..]))
  }

  function EntriesNesting(entries: seq<Entry>): nat
    decreases entries, 0
  {
    if entries == [] then 0 else Max(EntryNesting(entries[0]), EntriesNesting(entries[1..]))
  }

  function EntryNesting(e: Entry): nat
    decreases e, 0
  {
    Max(Nesting(e.key), Nesting(e.val))
  }

  function ValueNesting(props: seq<Prop>): nat
    decreases props, 0
  {
    if props == [] then 0
    else if props[0].name == VALUE then BareNesting(props[0].value)
    else ValueNesting(props[1..])
  }

  function PropsNesting(props: seq<Prop>): nat
    decreases props, 0
  {
    if props == [] then 0
    else if props[0].name == VALUE then PropsNesting(props[1..])
    else Max(Nesting(props[0].value), PropsNesting(props[1..]))
  }

  // ---- What a read leaves behind ----

  /** The type names known under the ids issued before `next` are untouched. */
  predicate Keeps(a: map<string, seq<string>>, b: map<string, seq<string>>, next: nat) {
    forall i: nat :: i < next ==>
      (ShowNat(i) in a <==> ShowNat(i) in b) && (ShowNat(i) in a ==> a[ShowNat(i)] == b[ShowNat(i)])
  }

  /** `d2` is `d` with the reader at `tail`, and perhaps more type names. */
  predicate Resumes(d: Dec, d2: Dec, tail: seq<Token>, next: nat) {
    d2 == d.(rest := tail, typeNames := d2.typeNames) && Keeps(d.typeNames, d2.typeNames, next)
  }

  lemma ResumesTwice(a: Dec, b: Dec, c: Dec, middle: seq<Token>, tail: seq<Token>, n: nat, m: nat)
    requires Resumes(a, b, middle, n) && Resumes(b, c, tail, m) && n <= m
    ensures Resumes(a, c, tail, n)
  {
    hide ShowNat;
  }

  lemma ResumesEarlier(a: Dec, b: Dec, tail: seq<Token>, n: nat, m: nat)
    requires Resumes(a, b, tail, m) && n <= m
    ensures Resumes(a, b, tail, n)
  {
    hide ShowNat;
  }

  /** A read that gives `value` and stops at `tail`, or runs into the nesting limit. */
  predicate Yields<T(==)>(r: Result<Out<T>, Fault>, value: T, d: Dec, tail: seq<Token>, next: nat, fits: bool) {
    if fits then r.Ok? && r.value.value == value && Resumes(d, r.value.dec, tail, next) else r == Err(TooDeep)
  }

  /** A document without references. */
  predicate NoRefs(p: Policy) {
    p.Bounded? && p.referenced == {}
  }

  /** No reference names an id from `next` on. */
  ghost predicate Unkept(p: Policy, next: nat) {
    p.Bounded? && forall i: nat :: next <= i ==> ShowNat(i) !in p.referenced
  }

  // ---- Scalars ----

  lemma PlainBody(v: Value)
    requires Atomic(v) && !v.Textual? && !v.Decimal?
    ensures Unescape(ScalarBody(v)) == Some(ScalarBody(v)) && Decode(ScalarBody(v)) == ScalarBody(v)
  {
    hide ShowInt, ShowNat, Base64.Encode, Hex, Unescape, Decode;
    var s := ScalarBody(v);
    if v.Bytes? {
      Base64.EncodeShape(v.bytes);
    }
    PlainText(s);
  }

  lemma BodyIsTrimmed(v: Value)
    requires Atomic(v) && !v.Textual? && !v.Decimal?
    ensures Trim(ScalarBody(v)) == ScalarBody(v)
  {
    hide ShowInt, ShowNat, Base64.Encode, Hex, Trim;
    var s := ScalarBody(v);
    if v.Bytes? {
      Base64.EncodeShape(v.bytes);
    }
    TrimIdentity(s);
  }

  lemma IntTagsReadBack(k: IntKind)
    ensures IsScalarTag(IntTag(k)) && IntKindOf(IntTag(k)) == Some(k) && TextKindOf(IntTag(k)) == None
  {
  }

  lemma TextTagsReadBack(k: TextKind)
    ensures IsScalarTag(TextTag(k)) && TextKindOf(TextTag(k)) == Some(k)
  {
  }

  lemma TagsReadBack(v: Value)
    requires Atomic(v)
    ensures IsScalarTag(ScalarTag(v)) && ScalarTag(v) != "Obj" && ScalarTag(v) != "Ref"
    ensures !IsListTag(ScalarTag(v)) && ScalarTag(v) != "MS" && ScalarTag(v) != "Props" && ScalarTag(v) != "TN"
    ensures ScalarTag(v) != "TNRef" && ScalarTag(v) != "DCT"
  {
    match v
    case Int(k, _) => IntTagsReadBack(k);
    case Textual(k, _) => TextTagsReadBack(k);
    case _ =>
  }

  lemma ShownNatIsPositive(n: nat)
    ensures ShowInt(n) == ShowNat(n)
  {
  }

  lemma LowerTruth()
    ensures BoolOf(Lower("true")) == Some(true) && BoolOf(Lower("false")) == Some(false)
  {
    assert Lower("true") == "true" by {
      assert Lower("e") == "e" && Lower("ue") == "ue" && Lower("rue") == "rue";
    }
    assert Lower("false") == "false" by {
      assert Lower("e") == "e" && Lower("se") == "se" && Lower("lse") == "lse" && Lower("alse") == "alse";
    }
  }

  /** The text of a scalar element reads as its normal form. */
  lemma ScalarReads(v: Value)
    requires Atomic(v) && Wf(v)
    ensures Unescape(ScalarBody(v)).Some? && IsScalarTag(ScalarTag(v))
    ensures ScalarOf(ScalarTag(v), Decode(Unescape(ScalarBody(v)).value)) == Ok(Norm(v))
  {
    hide ShowInt, ShowNat, Base64.Encode, Base64.Decode, Unescape, Decode, Trim, Escape, ParseInt, ParseGuid, ShowGuid,
         IntTag, TextTag, IntKindOf, TextKindOf, Lower, BoolOf;
    TagsReadBack(v);
    match v
    case Textual(k, s) =>
      TextTagsReadBack(k);
      EscapeRoundTrip(s, false);
    case Decimal(s) =>
      EscapeRoundTrip(s, false);
      OtherTags();
    case _ =>
      PlainBody(v);
      BodyIsTrimmed(v);
      PlainScalarReads(v);
  }

  lemma OtherTags()
    ensures forall t :: t == "B" || t == "D" || t == "C" || t == "BA" || t == "G" ==>
      IntKindOf(t) == None && TextKindOf(t) == None
  {
  }

  lemma PlainScalarReads(v: Value)
    requires Atomic(v) && Wf(v) && !v.Textual? && !v.Decimal?
    requires Trim(ScalarBody(v)) == ScalarBody(v)
    ensures IsScalarTag(ScalarTag(v)) && ScalarOf(ScalarTag(v), ScalarBody(v)) == Ok(Norm(v))
  {
    hide ShowInt, ShowNat, Base64.Encode, Base64.Decode, Trim, ParseInt, ParseGuid, ShowGuid, IntTag, IntKindOf,
         TextKindOf, Lower, BoolOf;
    OtherTags();
    match v
    case Bool(_) => LowerTruth();
    case Int(k, i) =>
      IntTagsReadBack(k);
      ParseShownInt(i, Lowest(k), Highest(k));
    case Char(c) =>
      var code := if c as int < 0x1_0000 then c as int else 0xFFFD;
      ShownNatIsPositive(code);
      ParseShownInt(code, 0, U32_MAX);
    case Bytes(b) => Base64.RoundTrip(b);
    case GuidValue(g) => ParseShownGuid(g);
  }

  // ---- Sequence plumbing ----

  lemma Head<T>(a: seq<T>, b: seq<T>)
    requires a != []
    ensures a + b != [] && (a + b)[0] == a[0] && (a + b)[1..] == a[1..] + b
  {
  }

  lemma Unwrap<T>(x: T, a: seq<T>, z: T, tail: seq<T>)
    ensures ([x] + (a + [z])) + tail == [x] + (a + ([z] + tail))
    ensures (([x] + (a + [z])) + tail)[1..] == a + ([z] + tail)
  {
  }

  // ---- First tokens ----

  /** The first event of an encoded value carries its name. */
  lemma FirstToken(v: Value, name: Option<string>, next: nat)
    ensures var toks := EncValue(v, name, next).toks;
      && toks != []
      && (v.Null? ==> toks == [Empty("Nil", NameAttr(name))])
      && (!v.Null? ==> toks[0].Start? && NameOf(toks[0].attrs) == Ok(name)
                       && toks[0].tag == if Atomic(v) then ScalarTag(v) else "Obj")
    ensures NameOf(NameAttr(name)) == Ok(name)
  {
    hide NameAttr, NameOf, EncItems, EncEntries, EncObjBody, Wrapped, ScalarTag, ScalarBody, IdAttr;
    ReadName(name, []);
    assert NameAttr(name) + [] == NameAttr(name);
    IdIsNoName(name, next);
  }

  lemma IdIsNoName(name: Option<string>, id: nat)
    ensures NameOf(NameAttr(name) + [IdAttr(id)]) == Ok(name)
  {
    ReadName(name, [IdAttr(id)]);
  }

  // ---- Scalars as elements ----

  lemma ReadScalar(p: Policy, d: Dec, v: Value, name: Option<string>, next: nat, tail: seq<Token>, depth: nat)
    requires Atomic(v) && Wf(v)
    ensures var toks := EncValue(v, name, next).toks;
      && toks != [] && toks[0].Start?
      && Yields(ParseElement(p, d.(rest := toks[1..] + tail), toks[0].tag, toks[0].attrs, depth),
                Some(Norm(v)), d, tail, next, depth + 1 <= MAX_NESTING_DEPTH)
  {
    hide ReadText, ScalarOf, ScalarTag, ScalarBody, Lex, Decode, Unescape, NameAttr, IsScalarTag, Norm, ShowNat;
    var toks := EncValue(v, name, next).toks;
    var tag, body := ScalarTag(v), ScalarBody(v);
    assert toks == [Start(tag, NameAttr(name))] + (Lex(body) + [End(tag)]);
    Regroup(Lex(body), [End(tag)], tail);
    TagsReadBack(v);
    ScalarReads(v);
    ReadLexed(body, tag, tail, "");
    assert "" + Unescape(body).value == Unescape(body).value;
  }

  // ---- Loop steps ----

  lemma ListStart(p: Policy, d: Dec, depth: nat, items: seq<Value>, closing: string)
    requires d.rest != [] && d.rest[0].Start?
    ensures var r := ParseElement(p, d.(rest := d.rest[1..]), d.rest[0].tag, d.rest[0].attrs, depth);
      ParseList(p, d, depth, items, closing)
        == if r.Err? then Err(r.error)
           else ParseList(p, r.value.dec, depth, items + r.value.value.ToSeq(), closing)
  {
    hide ParseElement;
  }

  lemma ListNil(p: Policy, d: Dec, depth: nat, items: seq<Value>, closing: string)
    requires d.rest != [] && d.rest[0].Empty? && d.rest[0].tag == "Nil"
    ensures ParseList(p, d, depth, items, closing)
         == ParseList(p, d.(rest := d.rest[1..]), depth, items + [Null], closing)
  {
    hide ParseElement;
  }

  lemma ListEnd(p: Policy, d: Dec, depth: nat, items: seq<Value>, closing: string)
    requires d.rest != [] && d.rest[0] == End(closing)
    ensures ParseList(p, d, depth, items, closing) == Ok(Out(items, d.(rest := d.rest[1..])))
  {
    hide ParseElement;
  }

  /** One item. */
  lemma ReadItem(p: Policy, d: Dec, v: Value, next: nat, tail: seq<Token>, depth: nat, acc: seq<Value>, closing: string)
    returns (d2: Dec)
    requires Unkept(p, next) && Wf(v) && depth <= MAX_NESTING_DEPTH
    ensures var r := ParseList(p, d.(rest := EncValue(v, None, next).toks + tail), depth, acc, closing);
      if depth + Nesting(v) <= MAX_NESTING_DEPTH
      then Resumes(d, d2, tail, next) && r == ParseList(p, d2, depth, acc + [Norm(v)], closing)
      else r == Err(TooDeep)
    decreases v, 3
  {
    hide EncValue, ParseElement, ParseList, Norm, NameOf, Keeps;
    var toks := EncValue(v, None, next).toks;
    FirstToken(v, None, next);
    Head(toks, tail);
    var at := d.(rest := toks + tail);
    d2 := d.(rest := tail);
    if v.Null? {
      assert Norm(v) == Null by { NormNull(); }
      assert toks[1..] + tail == tail;
      KeepsItself(d.typeNames, next);
      ListNil(p, at, depth, acc, closing);
    } else {
      ReadValue(p, d, v, None, next, tail, depth);
      ListStart(p, at, depth, acc, closing);
      var r := ParseElement(p, at.(rest := toks[1..] + tail), toks[0].tag, toks[0].attrs, depth);
      if r.Ok? {
        d2 := r.value.dec;
      }
    }
  }

  lemma NormNull()
    ensures Norm(Null) == Null
  {
  }

  lemma KeepsItself(m: map<string, seq<string>>, next: nat)
    ensures Keeps(m, m, next)
  {
  }

  lemma {:induction false} ReadItems(p: Policy, d: Dec, items: seq<Value>, next: nat, tail: seq<Token>, depth: nat,
                                     acc: seq<Value>, closing: string)
    requires Unkept(p, next) && depth <= MAX_NESTING_DEPTH
    requires forall i :: 0 <= i < |items| ==> Wf(items[i])
    ensures Yields(ParseList(p, d.(rest := EncItems(items, next).toks + ([End(closing)] + tail)), depth, acc, closing),
                   acc + NormItems(items), d, tail, next, depth + ItemsNesting(items) <= MAX_NESTING_DEPTH)
    decreases items, 0
  {
    hide EncValue, ParseList, Norm, Keeps, Wf;
    var end := [End(closing)] + tail;
    if items == [] {
      assert [] + end == end && end[1..] == tail;
      ListEnd(p, d.(rest := end), depth, acc, closing);
      KeepsItself(d.typeNames, next);
      assert acc + [] == acc;
    } else {
      var e := EncValue(items[0], None, next);
      var more := EncItems(items[1..], e.next).toks;
      Regroup(e.toks, more, end);
      var d2 := ReadItem(p, d, items[0], next, more + end, depth, acc, closing);
      if depth + Nesting(items[0]) <= MAX_NESTING_DEPTH {
        ReadItems(p, d2, items[1..], e.next, tail, depth, acc + [Norm(items[0])], closing);
        assert d2.(rest := more + end) == d2;
        Regroup(acc, [Norm(items[0])], NormItems(items[1..]));
        if depth + ItemsNesting(items[1..]) <= MAX_NESTING_DEPTH {
          var r := ParseList(p, d2, depth, acc + [Norm(items[0])], closing);
          ResumesTwice(d, d2, r.value.dec, more + end, tail, next, e.next);
        }
      }
    }
  }

  lemma EntryStart(p: Policy, d: Dec, depth: nat, e: Entry, name: string)
    requires d.rest != [] && d.rest[0].Start? && NameOf(d.rest[0].attrs) == Ok(Some(name))
    ensures var r := ParseElement(p, d.(rest := d.rest[1..]), d.rest[0].tag, d.rest[0].attrs, depth);
      ParseDictEntry(p, d, depth, e)
        == if r.Err? then Err(r.error)
           else ParseDictEntry(p, r.value.dec, depth, if r.value.value.Some? then SetEntry(e, name, r.value.value.value) else e)
  {
    hide ParseElement, NameOf, SetEntry;
  }

  lemma EntryNil(p: Policy, d: Dec, depth: nat, e: Entry, name: string)
    requires d.rest != [] && d.rest[0].Empty? && d.rest[0].tag == "Nil" && NameOf(d.rest[0].attrs) == Ok(Some(name))
    ensures ParseDictEntry(p, d, depth, e)
         == ParseDictEntry(p, d.(rest := d.rest[1..]), depth, SetEntry(e, name, Null))
  {
    hide ParseElement, NameOf, SetEntry;
  }

  lemma EntryEnd(p: Policy, d: Dec, depth: nat, e: Entry)
    requires d.rest != [] && d.rest[0] == End("En")
    ensures ParseDictEntry(p, d, depth, e) == Ok(Out(e, d.(rest := d.rest[1..])))
  {
    hide ParseElement;
  }

  /** The key or the value of an entry. */
  lemma ReadHalf(p: Policy, d: Dec, v: Value, name: string, next: nat, tail: seq<Token>, depth: nat, e: Entry)
    returns (d2: Dec)
    requires Unkept(p, next) && Wf(v) && depth <= MAX_NESTING_DEPTH
    ensures var r := ParseDictEntry(p, d.(rest := EncValue(v, Some(name), next).toks + tail), depth, e);
      if depth + Nesting(v) <= MAX_NESTING_DEPTH
      then Resumes(d, d2, tail, next) && r == ParseDictEntry(p, d2, depth, SetEntry(e, name, Norm(v)))
      else r == Err(TooDeep)
    decreases v, 3
  {
    hide EncValue, ParseElement, ParseDictEntry, Norm, NameOf, Keeps, SetEntry;
    var toks := EncValue(v, Some(name), next).toks;
    FirstToken(v, Some(name), next);
    Head(toks, tail);
    var at := d.(rest := toks + tail);
    d2 := d.(rest := tail);
    if v.Null? {
      assert Norm(v) == Null by { NormNull(); }
      assert toks[1..] + tail == tail;
      KeepsItself(d.typeNames, next);
      EntryNil(p, at, depth, e, name);
    } else {
      ReadValue(p, d, v, Some(name), next, tail, depth);
      EntryStart(p, at, depth, e, name);
      var r := ParseElement(p, at.(rest := toks[1..] + tail), toks[0].tag, toks[0].attrs, depth);
      if r.Ok? {
        d2 := r.value.dec;
      }
    }
  }

  lemma ReadEntry(p: Policy, d: Dec, e: Entry, next: nat, tail: seq<Token>, depth: nat)
    requires Unkept(p, next) && Wf(e.key) && Wf(e.val) && depth <= MAX_NESTING_DEPTH
    ensures EncEntry(e, next).toks != [] && EncEntry(e, next).toks[0] == Start("En", [])
    ensures Yields(ParseDictEntry(p, d.(rest := EncEntry(e, next).toks[1..] + tail), depth, Entry(Null, Null)),
                   NormEntry(e), d, tail, next, depth + EntryNesting(e) <= MAX_NESTING_DEPTH)
    decreases e, 0
  {
    hide EncValue, ParseDictEntry, Norm, Keeps, Wf, Nesting;
    var k := EncValue(e.key, Some("Key"), next);
    var v := EncValue(e.val, Some("Value"), k.next);
    var end := [End("En")] + tail;
    EntryPieces(k.toks, v.toks, tail);
    var d1 := ReadHalf(p, d, e.key, "Key", next, v.toks + end, depth, Entry(Null, Null));
    if depth + Nesting(e.key) <= MAX_NESTING_DEPTH {
      assert d1 == d1.(rest := v.toks + end);
      var d2 := ReadHalf(p, d1, e.val, "Value", k.next, end, depth, Entry(Norm(e.key), Null));
      if depth + Nesting(e.val) <= MAX_NESTING_DEPTH {
        assert end[1..] == tail;
        EntryEnd(p, d2, depth, NormEntry(e));
        ResumesTwice(d, d1, d2, v.toks + end, end, next, k.next);
        ResumesOn(d, d2, end, tail, next);
      }
    }
  }

  lemma EntryPieces(k: seq<Token>, v: seq<Token>, tail: seq<Token>)
    ensures ([Start("En", [])] + (k + (v + [End("En")])))[1..] + tail == k + (v + ([End("En")] + tail))
  {
  }

  lemma ResumesOn(a: Dec, b: Dec, middle: seq<Token>, tail: seq<Token>, n: nat)
    requires Resumes(a, b, middle, n)
    ensures Resumes(a, b.(rest := tail), tail, n)
  {
    hide ShowNat;
  }

  lemma DictStart(p: Policy, d: Dec, depth: nat, entries: seq<Entry>)
    requires d.rest != [] && d.rest[0].Start? && d.rest[0].tag == "En"
    ensures var r := ParseDictEntry(p, d.(rest := d.rest[1..]), depth, Entry(Null, Null));
      ParseDict(p, d, depth, entries)
        == if r.Err? then Err(r.error)
           else ParseDict(p, r.value.dec, depth, entries + [r.value.value])
  {
    hide ParseDictEntry;
  }

  lemma DictEnd(p: Policy, d: Dec, depth: nat, entries: seq<Entry>)
    requires d.rest != [] && d.rest[0] == End("DCT")
    ensures ParseDict(p, d, depth, entries) == Ok(Out(entries, d.(rest := d.rest[1..])))
  {
    hide ParseDictEntry;
  }

  lemma {:induction false} ReadEntries(p: Policy, d: Dec, entries: seq<Entry>, next: nat, tail: seq<Token>, depth: nat,
                                       acc: seq<Entry>)
    requires Unkept(p, next) && depth <= MAX_NESTING_DEPTH
    requires forall i :: 0 <= i < |entries| ==> Wf(entries[i].key) && Wf(entries[i].val)
    ensures Yields(ParseDict(p, d.(rest := EncEntries(entries, next).toks + ([End("DCT")] + tail)), depth, acc),
                   acc + NormEntries(entries), d, tail, next, depth + EntriesNesting(entries) <= MAX_NESTING_DEPTH)
    decreases entries, 0
  {
    hide EncEntry, ParseDict, ParseDictEntry, NormEntry, Keeps, Wf, EntryNesting;
    var end := [End("DCT")] + tail;
    if entries == [] {
      assert [] + end == end && end[1..] == tail;
      DictEnd(p, d.(rest := end), depth, acc);
      KeepsItself(d.typeNames, next);
      assert acc + [] == acc;
    } else {
      var e := EncEntry(entries[0], next);
      var more := EncEntries(entries[1..], e.next).toks;
      Regroup(e.toks, more, end);
      ReadEntry(p, d, entries[0], next, more + end, depth);
      Head(e.toks, more + end);
      DictStart(p, d.(rest := e.toks + (more + end)), depth, acc);
      if depth + EntryNesting(entries[0]) <= MAX_NESTING_DEPTH {
        var r := ParseDictEntry(p, d.(rest := e.toks[1..] + (more + end)), depth, Entry(Null, Null));
        var d2 := r.value.dec;
        assert d2.(rest := more + end) == d2;
        ReadEntries(p, d2, entries[1..], e.next, tail, depth, acc + [NormEntry(entries[0])]);
        Regroup(acc, [NormEntry(entries[0])], NormEntries(entries[1..]));
        if depth + EntriesNesting(entries[1..]) <= MAX_NESTING_DEPTH {
          var q := ParseDict(p, d2, depth, acc + [NormEntry(entries[0])]);
          ResumesTwice(d, d2, q.value.dec, more + end, tail, next, e.next);
        }
      }
    }
  }

  lemma MemberStart(p: Policy, d: Dec, depth: nat, props: seq<Prop>, closing: string, name: string)
    requires d.rest != [] && d.rest[0].Start? && NameOf(d.rest[0].attrs) == Ok(Some(name))
    ensures var r := ParseElement(p, d.(rest := d.rest[1..]), d.rest[0].tag, d.rest[0].attrs, depth);
      ParseMemberSet(p, d, depth, props, closing)
        == if r.Err? then Err(r.error)
           else ParseMemberSet(p, r.value.dec, depth,
                               if r.value.value.Some? then Insert(props, name, r.value.value.value) else props, closing)
  {
    hide ParseElement, NameOf, Insert;
  }

  lemma MemberNil(p: Policy, d: Dec, depth: nat, props: seq<Prop>, closing: string, name: string)
    requires d.rest != [] && d.rest[0].Empty? && d.rest[0].tag == "Nil" && NameOf(d.rest[0].attrs) == Ok(Some(name))
    ensures ParseMemberSet(p, d, depth, props, closing)
         == ParseMemberSet(p, d.(rest := d.rest[1..]), depth, Insert(props, name, Null), closing)
  {
    hide ParseElement, NameOf, Insert;
  }

  lemma MemberEnd(p: Policy, d: Dec, depth: nat, props: seq<Prop>, closing: string)
    requires d.rest != [] && d.rest[0] == End(closing)
    ensures ParseMemberSet(p, d, depth, props, closing) == Ok(Out(props, d.(rest := d.rest[1..])))
  {
    hide ParseElement;
  }

  /** One property. */
  lemma ReadProp(p: Policy, d: Dec, v: Value, name: string, next: nat, tail: seq<Token>, depth: nat, acc: seq<Prop>,
                 closing: string)
    returns (d2: Dec)
    requires Unkept(p, next) && Wf(v) && depth <= MAX_NESTING_DEPTH
    ensures var r := ParseMemberSet(p, d.(rest := EncValue(v, Some(name), next).toks + tail), depth, acc, closing);
      if depth + Nesting(v) <= MAX_NESTING_DEPTH
      then Resumes(d, d2, tail, next) && r == ParseMemberSet(p, d2, depth, Insert(acc, name, Norm(v)), closing)
      else r == Err(TooDeep)
    decreases v, 3
  {
    hide EncValue, ParseElement, ParseMemberSet, Norm, NameOf, Keeps, Insert;
    var toks := EncValue(v, Some(name), next).toks;
    FirstToken(v, Some(name), next);
    Head(toks, tail);
    var at := d.(rest := toks + tail);
    d2 := d.(rest := tail);
    if v.Null? {
      assert Norm(v) == Null by { NormNull(); }
      assert toks[1..] + tail == tail;
      KeepsItself(d.typeNames, next);
      MemberNil(p, at, depth, acc, closing, name);
    } else {
      ReadValue(p, d, v, Some(name), next, tail, depth);
      MemberStart(p, at, depth, acc, closing, name);
      var r := ParseElement(p, at.(rest := toks[1..] + tail), toks[0].tag, toks[0].attrs, depth);
      if r.Ok? {
        d2 := r.value.dec;
      }
    }
  }

  predicate NewNames(acc: seq<Prop>, props: seq<Prop>) {
    forall i, j :: 0 <= i < |acc| && 0 <= j < |props| ==> acc[i].name != props[j].name
  }

  lemma TailNames(acc: seq<Prop>, props: seq<Prop>)
    requires props != [] && DistinctNames(props) && NewNames(acc, props)
    ensures DistinctNames(props[1..]) && NewNames(acc, props[1..])
    ensures forall i :: 0 <= i < |acc| ==> acc[i].name != props[0].name
    ensures forall v: Value :: NewNames(acc + [Prop(props[0].name, v)], props[1..])
  {
  }

  lemma NormPropsStep(props: seq<Prop>)
    ensures props == [] ==> NormProps(props) == [] && PropsNesting(props) == 0
    ensures props != [] && props[0].name == VALUE ==>
      NormProps(props) == NormProps(props[1..]) && PropsNesting(props) == PropsNesting(props[1..])
    ensures props != [] && props[0].name != VALUE ==>
      && NormProps(props) == [Prop(props[0].name, Norm(props[0].value))] + NormProps(props[1..])
      && PropsNesting(props) == Max(Nesting(props[0].value), PropsNesting(props[1..]))
  {
    hide Norm, Nesting;
  }

  lemma {:induction false} ReadProps(p: Policy, d: Dec, props: seq<Prop>, next: nat, tail: seq<Token>, depth: nat,
                                     acc: seq<Prop>, closing: string)
    returns (d2: Dec)
    requires Unkept(p, next) && depth <= MAX_NESTING_DEPTH && DistinctNames(props) && NewNames(acc, props)
    requires forall i :: 0 <= i < |props| ==> Wf(props[i].value)
    ensures var r := ParseMemberSet(p, d.(rest := EncProps(props, next).toks + tail), depth, acc, closing);
      if depth + PropsNesting(props) <= MAX_NESTING_DEPTH
      then Resumes(d, d2, tail, next) && r == ParseMemberSet(p, d2, depth, acc + NormProps(props), closing)
      else r == Err(TooDeep)
    decreases props, 0
  {
    hide EncValue, EncProps, ParseMemberSet, Norm, NormProps, Keeps, Wf, Insert, Nesting, PropsNesting, DistinctNames,
         NewNames;
    PropsStep(props, 0, next);
    assert props[0..] == props;
    NormPropsStep(props);
    d2 := d.(rest := tail);
    if props == [] {
      assert [] + tail == tail;
      KeepsItself(d.typeNames, next);
      assert acc + [] == acc;
    } else if props[0].name == VALUE {
      TailNames(acc, props);
      d2 := ReadProps(p, d, props[1..], next, tail, depth, acc, closing);
    } else {
      var prop := props[0];
      var e := EncValue(prop.value, Some(prop.name), next);
      var more := EncProps(props[1..], e.next).toks;
      Regroup(e.toks, more, tail);
      var d1 := ReadProp(p, d, prop.value, prop.name, next, more + tail, depth, acc, closing);
      var grown := acc + [Prop(prop.name, Norm(prop.value))];
      if depth + Nesting(prop.value) <= MAX_NESTING_DEPTH {
        TailNames(acc, props);
        InsertNew(acc, prop.name, Norm(prop.value));
        assert d1.(rest := more + tail) == d1;
        d2 := ReadProps(p, d1, props[1..], e.next, tail, depth, grown, closing);
        Regroup(acc, [Prop(prop.name, Norm(prop.value))], NormProps(props[1..]));
        if depth + PropsNesting(props[1..]) <= MAX_NESTING_DEPTH {
          ResumesTwice(d, d1, d2, more + tail, tail, next, e.next);
        }
      }
    }
  }

  // ---- Object bodies ----

  lemma BodyStart(p: Policy, d: Dec, depth: nat, c: Child)
    requires d.rest != [] && d.rest[0].Start?
    ensures var r := ParseChild(p, d.(rest := d.rest[1..]), d.rest[0].tag, d.rest[0].attrs, depth, c);
      ParseObjBody(p, d, depth, c.names, c.props, c.embedded)
        == if r.Err? then Err(r.error)
           else ParseObjBody(p, r.value.dec, depth, r.value.value.names, r.value.value.props, r.value.value.embedded)
  {
    hide ParseChild;
  }

  lemma BodyNil(p: Policy, d: Dec, depth: nat, c: Child)
    requires d.rest != [] && d.rest[0].Empty? && d.rest[0].tag == "Nil"
    ensures ParseObjBody(p, d, depth, c.names, c.props, c.embedded)
         == ParseObjBody(p, d.(rest := d.rest[1..]), depth, c.names, c.props, c.embedded)
  {
    hide ParseChild;
  }

  lemma BodyEnd(p: Policy, d: Dec, depth: nat, c: Child)
    requires d.rest != [] && d.rest[0] == End("Obj")
    ensures ParseObjBody(p, d, depth, c.names, c.props, c.embedded)
         == Ok(Out(Finish(c.names, c.props, c.embedded), d.(rest := d.rest[1..])))
  {
    hide ParseChild, Finish;
  }

  lemma {:induction false} ReadTypeNameItems(names: seq<string>, tail: seq<Token>, acc: seq<string>)
    ensures ParseTypeNames(TypeNameItems(names) + ([End("TN")] + tail), acc) == Ok(Taken(acc + names, tail))
  {
    hide ReadText, Lex, Escape;
    var end := [End("TN")] + tail;
    if names == [] {
      assert [] + end == end && end[1..] == tail && acc + [] == acc;
    } else {
      var more := TypeNameItems(names[1..]) + end;
      TypeNamePieces(names, Lex(Escape(names[0], false)), end);
      EscapedText(names[0], "T", more);
      ReadTypeNameItems(names[1..], tail, acc + [names[0]]);
      Regroup(acc, [names[0]], names[1..]);
      assert [names[0]] + names[1..] == names;
    }
  }

  lemma TypeNamePieces(names: seq<string>, text: seq<Token>, end: seq<Token>)
    requires names != [] && text == Lex(Escape(names[0], false))
    ensures TypeNameItems(names) + end
         == [Start("T", [])] + (text + ([End("T")] + (TypeNameItems(names[1..]) + end)))
  {
    hide Lex, Escape;
    assert NameAttr(None) == [];
    var s := Simple("T", Escape(names[0], false), None);
    Regroup(s, TypeNameItems(names[1..]), end);
    Unwrap(Start("T", []), text, End("T"), TypeNameItems(names[1..]) + end);
  }

  /** The type names are read, and known under their id from now on. */
  lemma ReadTypeNames(p: Policy, d: Dec, names: seq<string>, id: nat, next: nat, tail: seq<Token>, depth: nat)
    returns (d2: Dec)
    requires next <= id
    ensures Resumes(d, d2, tail, next)
    ensures names != [] ==> d2.typeNames == d.typeNames[ShowNat(id) := names]
    ensures ParseObjBody(p, d.(rest := TypeNameBlock(names, id) + tail), depth, [], [], None)
         == ParseObjBody(p, d2, depth, names, [], None)
  {
    hide ParseObjBody, TypeNameItems, ParseTypeNames, RefIdOf, ShowNat;
    if names == [] {
      d2 := d.(rest := tail);
      KeepsItself(d.typeNames, next);
      assert [] + tail == tail;
    } else {
      var block := TypeNameItems(names);
      Unwrap(Start("TN", [IdAttr(id)]), block, End("TN"), tail);
      ReadTypeNameItems(names, tail, []);
      assert [] + names == names;
      ReadId(id, None);
      BodyStart(p, d.(rest := TypeNameBlock(names, id) + tail), depth, Child([], [], None));
      d2 := d.(rest := tail, typeNames := d.typeNames[ShowNat(id) := names]);
      forall i: nat | i < next ensures ShowNat(i) != ShowNat(id) {
        if ShowNat(i) == ShowNat(id) { ShowNatInjective(i, id); }
      }
    }
  }

  lemma {:induction false} SkipLexed(body: string, tag: string, tail: seq<Token>)
    requires Unescape(body).Some?
    ensures SkipToEnd(Lex(body) + ([End(tag)] + tail), 1) == Ok(tail)
    decreases |body|
  {
    hide Lex, FirstEvent, Resolve, Semicolon, NextAmpersand, Unescape;
    var end := [End(tag)] + tail;
    if body == "" {
      LexNothing();
      assert [] + end == end && end[1..] == tail;
    } else {
      if body[0] == '&' { LexReference(body); } else { LexRun(body); }
      LexStep(body);
      var r := body[FirstEvent(body).1..];
      Cons(FirstEvent(body).0, Lex(r), end);
      SkipLexed(r, tag, tail);
    }
  }

  lemma DisplayIsUnknown(p: Policy, d: Dec, depth: nat, c: Child)
    requires SkipToEnd(d.rest, 1).Ok? && c.embedded.None?
    ensures ParseChild(p, d, "ToString", [], depth, c)
         == if depth >= MAX_NESTING_DEPTH then Err(TooDeep) else Ok(Out(c, d.(rest := SkipToEnd(d.rest, 1).value)))
  {
    hide SkipToEnd, ReadText, IsScalarTag, IsListTag;
    UnknownTag();
    var t := "ToString";
    assert t != "MS" && t != "Props" && t != "TN" && t != "TNRef" && t != "DCT" && t != "Obj" && t != "Ref";
    if depth < MAX_NESTING_DEPTH {
      assert ParseInner(p, d, t, [], depth + 1) == Ok(Out(None, d.(rest := SkipToEnd(d.rest, 1).value)));
    }
  }

  lemma UnknownTag()
    ensures !IsScalarTag("ToString") && !IsListTag("ToString")
  {
    var tag := "ToString";
    assert |tag| == 8;
  }

  /** The display text is skipped as an element of its own. */
  lemma ReadDisplay(p: Policy, d: Dec, display: Option<string>, tail: seq<Token>, depth: nat, names: seq<string>)
    requires depth <= MAX_NESTING_DEPTH
    ensures ParseObjBody(p, d.(rest := DisplayBlock(display) + tail), depth, names, [], None)
         == if display.Some? && depth == MAX_NESTING_DEPTH then Err(TooDeep)
            else ParseObjBody(p, d.(rest := tail), depth, names, [], None)
  {
    hide ParseObjBody, SkipToEnd, Lex, Escape, Unescape, ReadText, Decode;
    if display.None? {
      assert [] + tail == tail;
    } else {
      var body := Escape(display.value, false);
      EscapeRoundTrip(display.value, false);
      assert DisplayBlock(display) == [Start("ToString", [])] + (Lex(body) + [End("ToString")]);
      Unwrap(Start("ToString", []), Lex(body), End("ToString"), tail);
      SkipLexed(body, "ToString", tail);
      DisplayIsUnknown(p, d.(rest := Lex(body) + ([End("ToString")] + tail)), depth, Child(names, [], None));
      BodyStart(p, d.(rest := DisplayBlock(display) + tail), depth, Child(names, [], None));
    }
  }

  function Embedded(props: seq<Prop>): Option<Value> {
    if NormValue(props) == [] then None else Some(NormValue(props)[0].value)
  }

  /** A container as a bare child. */
  lemma ReadContainer(p: Policy, d: Dec, v: Value, next: nat, tail: seq<Token>, depth: nat, names: seq<string>)
    returns (d2: Dec)
    requires Unkept(p, next) && Wf(v) && depth <= MAX_NESTING_DEPTH && (v.List? || v.Dict?)
    ensures var r := ParseObjBody(p, d.(rest := EncBare(v, next).toks + tail), depth, names, [], None);
      if depth + BareNesting(v) <= MAX_NESTING_DEPTH
      then Resumes(d, d2, tail, next) && r == ParseObjBody(p, d2, depth, names, [], Some(NormBare(v)))
      else r == Err(TooDeep)
    decreases v, 0
  {
    hide EncItems, EncEntries, ParseObjBody, ParseList, ParseDict, NormItems, NormEntries, Keeps, ItemsNesting,
         EntriesNesting;
    var at := d.(rest := EncBare(v, next).toks + tail);
    BodyContainer(p, at, depth, names, v, next, tail);
    d2 := d;
    match v
    case List(items) =>
      ReadItems(p, d, items, next, tail, depth, [], "LST");
      assert [] + NormItems(items) == NormItems(items);
      var r := ParseList(p, d.(rest := EncItems(items, next).toks + ([End("LST")] + tail)), depth, [], "LST");
      if r.Ok? { d2 := r.value.dec; }
    case Dict(entries) =>
      ReadEntries(p, d, entries, next, tail, depth, []);
      assert [] + NormEntries(entries) == NormEntries(entries);
      var r := ParseDict(p, d.(rest := EncEntries(entries, next).toks + ([End("DCT")] + tail)), depth, []);
      if r.Ok? { d2 := r.value.dec; }
  }

  lemma BodyContainer(p: Policy, d: Dec, depth: nat, names: seq<string>, v: Value, next: nat, tail: seq<Token>)
    requires v.List? || v.Dict?
    requires d.rest == EncBare(v, next).toks + tail
    ensures v.List? ==>
      var at := d.(rest := EncItems(v.items, next).toks + ([End("LST")] + tail));
      var r := ParseList(p, at, depth, [], "LST");
      ParseObjBody(p, d, depth, names, [], None)
        == if r.Err? then Err(r.error) else ParseObjBody(p, r.value.dec, depth, names, [], Some(List(r.value.value)))
    ensures v.Dict? ==>
      var at := d.(rest := EncEntries(v.entries, next).toks + ([End("DCT")] + tail));
      var r := ParseDict(p, at, depth, []);
      ParseObjBody(p, d, depth, names, [], None)
        == if r.Err? then Err(r.error) else ParseObjBody(p, r.value.dec, depth, names, [], Some(Dict(r.value.value)))
  {
    hide EncItems, EncEntries, ParseObjBody, ParseList, ParseDict;
    match v
    case List(items) =>
      Unwrap(Start("LST", []), EncItems(items, next).toks, End("LST"), tail);
      BodyStart(p, d, depth, Child(names, [], None));
    case Dict(entries) =>
      Unwrap(Start("DCT", []), EncEntries(entries, next).toks, End("DCT"), tail);
      BodyStart(p, d, depth, Child(names, [], None));
  }

  /** A bare child that is an element of its own. */
  lemma ReadBareElement(p: Policy, d: Dec, v: Value, next: nat, tail: seq<Token>, depth: nat, names: seq<string>)
    returns (d2: Dec)
    requires Unkept(p, next) && Wf(v) && depth <= MAX_NESTING_DEPTH && !v.List? && !v.Dict?
    ensures var r := ParseObjBody(p, d.(rest := EncValue(v, None, next).toks + tail), depth, names, [], None);
      if depth + Nesting(v) <= MAX_NESTING_DEPTH
      then Resumes(d, d2, tail, next)
           && r == ParseObjBody(p, d2, depth, names, [], if v.Null? then None else Some(Norm(v)))
      else r == Err(TooDeep)
    decreases v, 3
  {
    hide EncValue, ParseElement, ParseObjBody, Norm, NameOf, Keeps, ScalarTag, IsListTag;
    var toks := EncValue(v, None, next).toks;
    FirstToken(v, None, next);
    Head(toks, tail);
    var at := d.(rest := toks + tail);
    d2 := d.(rest := tail);
    if v.Null? {
      assert toks[1..] + tail == tail;
      KeepsItself(d.typeNames, next);
      BodyNil(p, at, depth, Child(names, [], None));
    } else {
      if Atomic(v) { TagsReadBack(v); } else { ObjIsNoContainer(); }
      ReadValue(p, d, v, None, next, tail, depth);
      BodyStart(p, at, depth, Child(names, [], None));
      var r := ParseElement(p, at.(rest := toks[1..] + tail), toks[0].tag, toks[0].attrs, depth);
      if r.Ok? {
        d2 := r.value.dec;
      }
    }
  }

  lemma ObjIsNoContainer()
    ensures !IsListTag("Obj")
  {
  }

  lemma {:induction false} ReadBareValue(p: Policy, d: Dec, props: seq<Prop>, next: nat, tail: seq<Token>, depth: nat,
                                         names: seq<string>)
    returns (d2: Dec)
    requires Unkept(p, next) && depth <= MAX_NESTING_DEPTH
    requires forall i :: 0 <= i < |props| ==> Wf(props[i].value)
    ensures var r := ParseObjBody(p, d.(rest := EncBareValue(props, next).toks + tail), depth, names, [], None);
      if depth + ValueNesting(props) <= MAX_NESTING_DEPTH
      then Resumes(d, d2, tail, next) && r == ParseObjBody(p, d2, depth, names, [], Embedded(props))
      else r == Err(TooDeep)
    decreases props, 0
  {
    hide EncValue, EncItems, EncEntries, EncBareValue, ParseObjBody, Norm, NormItems, NormEntries, Keeps, Nesting, Wf,
         Embedded, NormBare, Resumes;
    BareStep(props, 0, next);
    if props == [] {
      d2 := d.(rest := tail);
      KeepsItself(d.typeNames, next);
      assert [] + tail == tail;
      EmbeddedNext(props);
      assert Resumes(d, d2, tail, next) by { ResumesNow(d, tail, next); }
    } else if props[0].name != VALUE {
      EmbeddedNext(props);
      d2 := ReadBareValue(p, d, props[1..], next, tail, depth, names);
    } else {
      var v := props[0].value;
      EmbeddedNext(props);
      NormBareOf(v);
      if v.List? || v.Dict? {
        d2 := ReadContainer(p, d, v, next, tail, depth, names);
      } else {
        d2 := ReadBareElement(p, d, v, next, tail, depth, names);
      }
    }
  }

  lemma EmbeddedNext(props: seq<Prop>)
    ensures props == [] ==> Embedded(props) == None
    ensures props != [] && props[0].name == VALUE ==>
      Embedded(props) == if props[0].value.Null? then None else Some(NormBare(props[0].value))
    ensures props != [] && props[0].name != VALUE ==> Embedded(props) == Embedded(props[1..])
  {
    hide NormBare;
  }

  lemma NormBareOf(v: Value)
    ensures !v.List? && !v.Dict? ==> NormBare(v) == Norm(v)
  {
    hide Norm;
  }

  lemma ResumesNow(d: Dec, tail: seq<Token>, next: nat)
    ensures Resumes(d, d.(rest := tail), tail, next)
  {
    KeepsItself(d.typeNames, next);
  }

  lemma {:induction false} NoOthers(props: seq<Prop>)
    ensures Without(props, VALUE) == [] <==> NormProps(props) == []
    ensures Without(props, VALUE) == [] ==> PropsNesting(props) == 0
  {
    if props != [] {
      NoOthers(props[1..]);
    }
  }

  /** The member set, if any, and the end of the object. */
  lemma ReadMembers(p: Policy, d: Dec, props: seq<Prop>, next: nat, tail: seq<Token>, depth: nat, names: seq<string>,
                    embedded: Option<Value>)
    requires Unkept(p, next) && depth <= MAX_NESTING_DEPTH && DistinctNames(props)
    requires forall i :: 0 <= i < |props| ==> Wf(props[i].value)
    ensures Yields(ParseObjBody(p, d.(rest := MemberBlock(props, next) + ([End("Obj")] + tail)), depth, names, [], embedded),
                   Finish(names, NormProps(props), embedded), d, tail, next,
                   depth + PropsNesting(props) <= MAX_NESTING_DEPTH)
    decreases props, 1
  {
    hide EncProps, ParseObjBody, ParseMemberSet, NormProps, Keeps, PropsNesting, Wf, Without, Finish, ReferencedIds;
    NoOthers(props);
    var end := [End("Obj")] + tail;
    assert end[1..] == tail;
    if Without(props, VALUE) == [] {
      assert [] + end == end;
      KeepsItself(d.typeNames, next);
      BodyEnd(p, d.(rest := end), depth, Child(names, [], embedded));
    } else {
      var toks := EncProps(props, next).toks;
      Unwrap(Start("MS", []), toks, End("MS"), end);
      var d1 := ReadProps(p, d, props, next, [End("MS")] + end, depth, [], "MS");
      assert [] + NormProps(props) == NormProps(props);
      BodyStart(p, d.(rest := MemberBlock(props, next) + end), depth, Child(names, [], embedded));
      if depth + PropsNesting(props) <= MAX_NESTING_DEPTH {
        assert ([End("MS")] + end)[1..] == end;
        MemberEnd(p, d1, depth, NormProps(props), "MS");
        ResumesOn(d, d1, [End("MS")] + end, end, next);
        BodyEnd(p, d1.(rest := end), depth, Child(names, NormProps(props), embedded));
        ResumesOn(d, d1.(rest := end), end, tail, next);
      }
    }
  }

  lemma BodyPieces<T>(a: seq<T>, b: seq<T>, c: seq<T>, e: seq<T>, end: T, tail: seq<T>)
    ensures ((a + (b + (c + e))) + [end]) + tail == a + (b + (c + (e + ([end] + tail))))
  {
  }

  /** The body of an encoded object. */
  lemma ReadObjBody(p: Policy, d: Dec, v: Value, next: nat, tail: seq<Token>, depth: nat)
    requires Unkept(p, next) && Wf(v) && v.Object? && depth <= MAX_NESTING_DEPTH
    ensures Yields(ParseObjBody(p, d.(rest := (EncObjBody(v, next).toks + [End("Obj")]) + tail), depth, [], [], None),
                   Norm(v), d, tail, next, depth + Nesting(v) - 1 <= MAX_NESTING_DEPTH)
    decreases v, 0
  {
    hide EncProps, EncBareValue, TypeNameBlock, DisplayBlock, ParseObjBody, NormProps, NormValue, Keeps, PropsNesting,
         ValueNesting, Without, Finish, MemberBlock, Embedded, Resumes, Wf;
    assert DistinctNames(v.props) && forall i :: 0 <= i < |v.props| ==> Wf(v.props[i].value) by { WfProps(v); }
    var n := if v.typeNames == [] then next else NextId(next);
    var bare := EncBareValue(v.props, n);
    var a, b, c, e := TypeNameBlock(v.typeNames, next), DisplayBlock(v.display), bare.toks, MemberBlock(v.props, bare.next);
    var end := [End("Obj")] + tail;
    ObjBodyPieces(v, next);
    BodyPieces(a, b, c, e, End("Obj"), tail);
    var d1 := ReadTypeNames(p, d, v.typeNames, next, next, b + (c + (e + end)), depth);
    RestOf(d, d1, b + (c + (e + end)), next);
    ReadDisplay(p, d1, v.display, c + (e + end), depth, v.typeNames);
    if v.display.Some? && depth == MAX_NESTING_DEPTH {
      return;
    }
    var d2 := ReadBareValue(p, d1, v.props, n, e + end, depth, v.typeNames);
    if depth + ValueNesting(v.props) <= MAX_NESTING_DEPTH {
      RestOf(d1, d2, e + end, n);
      ReadMembers(p, d2, v.props, bare.next, tail, depth, v.typeNames, Embedded(v.props));
      NormOfObject(v);
      if depth + PropsNesting(v.props) <= MAX_NESTING_DEPTH {
        var r := ParseObjBody(p, d2, depth, v.typeNames, [], Embedded(v.props));
        ResumesTwice(d1, d2, r.value.dec, e + end, tail, n, bare.next);
        ResumesTwice(d, d1, r.value.dec, b + (c + (e + end)), tail, next, n);
      }
    }
  }

  lemma WfProps(v: Value)
    requires v.Object? && Wf(v)
    ensures DistinctNames(v.props) && forall i :: 0 <= i < |v.props| ==> Wf(v.props[i].value)
  {
  }

  lemma RestOf(d: Dec, d2: Dec, rest: seq<Token>, next: nat)
    requires Resumes(d, d2, rest, next)
    ensures d2.(rest := rest) == d2
  {
    hide Keeps;
  }

  lemma ObjBodyPieces(v: Value, next: nat)
    requires v.Object?
    ensures var n := if v.typeNames == [] then next else NextId(next);
      var bare := EncBareValue(v.props, n);
      EncObjBody(v, next).toks == TypeNameBlock(v.typeNames, next)
        + (DisplayBlock(v.display) + (bare.toks + MemberBlock(v.props, bare.next)))
  {
    hide EncProps, EncBareValue, TypeNameBlock, DisplayBlock, Without, Wrapped;
  }

  lemma NormOfObject(v: Value)
    requires v.Object?
    ensures Finish(v.typeNames, NormProps(v.props), Embedded(v.props)) == Norm(v)
  {
    hide NormProps, NormBare;
    NormValueIsSingle(v.props);
  }

  lemma {:induction false} NormValueIsSingle(props: seq<Prop>)
    ensures NormValue(props) == [] || (|NormValue(props)| == 1 && NormValue(props)[0].name == VALUE)
  {
    if props != [] {
      NormValueIsSingle(props[1..]);
    }
  }

  // ---- Values ----

  lemma ObjElement(p: Policy, d: Dec, attrs: seq<Attr>, depth: nat)
    requires p.Bounded? && RefIdOf(attrs).Ok?
    requires RefIdOf(attrs).value.Some? ==> RefIdOf(attrs).value.value !in p.referenced
    ensures var r := ParseObjBody(p, d, depth + 1, [], [], None);
      ParseElement(p, d, "Obj", attrs, depth)
        == if depth >= MAX_NESTING_DEPTH then Err(TooDeep)
           else if r.Err? then Err(r.error)
           else Ok(Out(Some(r.value.value), r.value.dec))
  {
    hide ParseObjBody, RefIdOf;
  }

  /** Every encoded value reads back as its normal form, or stops at the nesting limit. */
  lemma {:induction false} ReadValue(p: Policy, d: Dec, v: Value, name: Option<string>, next: nat, tail: seq<Token>,
                                     depth: nat)
    requires Unkept(p, next) && Wf(v) && !v.Null? && depth <= MAX_NESTING_DEPTH
    ensures var toks := EncValue(v, name, next).toks;
      && toks != [] && toks[0].Start?
      && Yields(ParseElement(p, d.(rest := toks[1..] + tail), toks[0].tag, toks[0].attrs, depth),
                Some(Norm(v)), d, tail, next, depth + Nesting(v) <= MAX_NESTING_DEPTH)
    decreases v, 2
  {
    hide EncObjBody, EncBare, ParseElement, ParseObjBody, RefIdOf, Keeps, NameAttr, IdAttr, BareNesting;
    if Atomic(v) {
      ScalarNesting(v);
      ReadScalar(p, d, v, name, next, tail, depth);
      return;
    }
    ReadId(next, name);
    var body := ObjTail(v, name, next);
    var at := d.(rest := EncValue(v, name, next).toks[1..] + tail);
    ObjElement(p, at, NameAttr(name) + [IdAttr(next)], depth);
    if depth < MAX_NESTING_DEPTH {
      if v.Object? {
        ReadObjBody(p, d, v, NextId(next), tail, depth + 1);
        var r := ParseObjBody(p, at, depth + 1, [], [], None);
        if r.Ok? { ResumesEarlier(d, r.value.dec, tail, next, NextId(next)); }
      } else {
        ReadWrapped(p, d, v, NextId(next), tail, depth + 1);
        Regroup(EncBare(v, NextId(next)).toks, [End("Obj")], tail);
        var r := ParseObjBody(p, at, depth + 1, [], [], None);
        if r.Ok? { ResumesEarlier(d, r.value.dec, tail, next, NextId(next)); }
      }
    }
  }

  lemma ScalarNesting(v: Value)
    requires Atomic(v)
    ensures Nesting(v) == 1
  {
  }

  lemma ObjTail(v: Value, name: Option<string>, next: nat) returns (body: seq<Token>)
    requires v.Object? || v.List? || v.Dict?
    ensures body == if v.Object? then EncObjBody(v, NextId(next)).toks else EncBare(v, NextId(next)).toks
    ensures EncValue(v, name, next).toks == [OpenObj(name, next)] + (body + [End("Obj")])
    ensures EncValue(v, name, next).toks[1..] == body + [End("Obj")]
  {
    hide EncObjBody, EncItems, EncEntries, Wrapped, OpenObj;
    body := if v.Object? then EncObjBody(v, NextId(next)).toks else EncBare(v, NextId(next)).toks;
  }

  /** A list or a dictionary in the object that wraps it. */
  lemma ReadWrapped(p: Policy, d: Dec, v: Value, next: nat, tail: seq<Token>, depth: nat)
    requires Unkept(p, next) && Wf(v) && depth <= MAX_NESTING_DEPTH && (v.List? || v.Dict?)
    ensures Yields(ParseObjBody(p, d.(rest := EncBare(v, next).toks + ([End("Obj")] + tail)), depth, [], [], None),
                   Norm(v), d, tail, next, depth + BareNesting(v) <= MAX_NESTING_DEPTH)
    ensures Nesting(v) == 1 + BareNesting(v)
    decreases v, 1
  {
    hide EncBare, ParseObjBody, Keeps, ItemsNesting, EntriesNesting, NormItems, NormEntries;
    var end := [End("Obj")] + tail;
    assert end[1..] == tail;
    var d2 := ReadContainer(p, d, v, next, end, depth, []);
    if depth + BareNesting(v) <= MAX_NESTING_DEPTH {
      BodyEnd(p, d2, depth, Child([], [], Some(NormBare(v))));
      ResumesOn(d, d2, end, tail, next);
    }
  }

  // ---- Documents ----

  lemma DocumentStart(p: Policy, d: Dec, values: seq<Value>)
    requires d.rest != [] && d.rest[0].Start?
    ensures var r := ParseElement(p, d.(rest := d.rest[1..]), d.rest[0].tag, d.rest[0].attrs, 0);
      ParseDocument(p, d, values)
        == if r.Err? then Err(r.error) else ParseDocument(p, r.value.dec, values + r.value.value.ToSeq())
  {
    hide ParseElement;
  }

  lemma DocumentEnd(p: Policy, d: Dec, values: seq<Value>)
    requires d.rest == []
    ensures ParseDocument(p, d, values) == Ok(Out(values, d))
  {
  }

  lemma DocumentNil(p: Policy, d: Dec, attrs: seq<Attr>)
    requires d.rest == [Empty("Nil", attrs)]
    ensures ParseDocument(p, d, []) == Ok(Out([Null], d.(rest := [])))
  {
    assert d.rest[1..] == [];
    assert [] + Some(Null).ToSeq() == [Null];
  }

  /** The document of one value, under any policy that keeps no object. */
  lemma ReadDocument(p: Policy, v: Value)
    requires Unkept(p, 0) && Wf(v)
    ensures var r := ParseDocument(p, Fresh(ToClixml(v)), []);
      if Nesting(v) <= MAX_NESTING_DEPTH then r.Ok? && r.value.value == [Norm(v)] else r == Err(TooDeep)
  {
    hide EncValue, ParseElement, ParseDocument, Norm, NameOf, Keeps;
    var toks := ToClixml(v);
    var d := Fresh(toks);
    FirstToken(v, None, 0);
    if v.Null? {
      NormNull();
      DocumentNil(p, d, NameAttr(None));
    } else {
      ReadValue(p, d, v, None, 0, [], 0);
      assert toks[1..] + [] == toks[1..];
      DocumentStart(p, d, []);
      var r := ParseElement(p, d.(rest := toks[1..]), toks[0].tag, toks[0].attrs, 0);
      if r.Ok? {
        assert [] + r.value.value.ToSeq() == [Norm(v)];
        DocumentEnd(p, r.value.dec, [Norm(v)]);
      }
    }
  }
}
