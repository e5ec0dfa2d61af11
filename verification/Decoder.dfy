/** The CLIXML decoder as a function of the events that are left. */
module Decoder {
  import opened Common
  import opened Text
  import opened Escapes
  import opened Xml
  import opened Values
  import Base64

  const MAX_NESTING_DEPTH: nat := 64
  const REF_BUDGET_FLOOR: nat := 0x10_0000
  const REF_BUDGET_CEILING: nat := 0x80_0000
  const REF_BUDGET_PER_BYTE: nat := 8

  /** `ref_budget`, for a document of so many bytes. */
  function RefBudget(length: nat): nat {
    Min(SatAdd(REF_BUDGET_FLOOR, Min(Min(length, U64_MAX) * REF_BUDGET_PER_BYTE, U64_MAX)), REF_BUDGET_CEILING)
  }

  /**
   * How references are treated. `Bounded` is the decoder: it keeps only the objects in `referenced`,
   * and charges every copy to `budget`. `Unbounded` keeps every object and checks nothing.
   */
  datatype Policy = Bounded(referenced: set<string>, budget: nat) | Unbounded

  /** The reader and the decoder state; `copies` lists the values charged to the budget. */
  datatype Dec = Dec(rest: seq<Token>, refs: map<string, Value>, expanded: nat, copies: seq<Value>,
                     typeNames: map<string, seq<string>>)

  datatype Out<T> = Out(value: T, dec: Dec)

  // ---- References ----

  /** `referenced_ids`: the ids `<Ref>` elements name before the first syntax error. */
  function ReferencedIds(toks: seq<Token>): set<string> {
    if toks == [] || toks[0].Bad? then {}
    else IdsOf(toks[0]) + ReferencedIds(toks[1..])
  }

  function IdsOf(t: Token): set<string> {
    if (t.Start? || t.Empty?) && t.tag == "Ref" then
      match RefIdOf(t.attrs)
      case Ok(Some(id)) => {id}
      case _ => {}
    else {}
  }

  /** `DecoderState::charge`, for a copy of `v`. */
  function Charge(budget: nat, d: Dec, v: Value): Result<Dec, Fault> {
    var expanded := SatAdd(d.expanded, Measure(v).weight);
    if expanded > budget then Err(RefBudgetSpent)
    else Ok(d.(expanded := expanded, copies := d.copies + [v]))
  }

  /** `resolve_ref`. */
  function ResolveRef(p: Policy, d: Dec, attrs: seq<Attr>, depth: nat, level: nat): Result<Out<Value>, Fault> {
    var id :- RefIdOf(attrs);
    if id.None? || id.value !in d.refs then Ok(Out(Null, d))
    else
      var target := d.refs[id.value];
      match p
      case Unbounded => Ok(Out(target, d))
      case Bounded(_, budget) =>
        if SatAdd32(SatAdd32(depth, level), Measure(target).height) > MAX_NESTING_DEPTH then Err(RefTooDeep)
        else
          var charged :- Charge(budget, d, target);
          Ok(Out(target, charged))
  }

  /** A finished object is kept under its id if some reference names that id. */
  function Keep(p: Policy, d: Dec, id: Option<string>, v: Value): Result<Dec, Fault> {
    if id.None? then Ok(d)
    else
      match p
      case Unbounded => Ok(d.(refs := d.refs[id.value := v]))
      case Bounded(referenced, budget) =>
        if id.value !in referenced then Ok(d)
        else
          var charged :- Charge(budget, d, v);
          Ok(charged.(refs := d.refs[id.value := v]))
  }

  // ---- Scalars ----

  function IntKindOf(tag: string): Option<IntKind> {
    if tag == "SB" then Some(SB)
    else if tag == "By" then Some(By)
    else if tag == "I16" then Some(I16)
    else if tag == "U16" then Some(U16)
    else if tag == "I32" then Some(I32)
    else if tag == "U32" then Some(U32)
    else if tag == "I64" then Some(I64)
    else if tag == "U64" then Some(U64)
    else None
  }

  function TextKindOf(tag: string): Option<TextKind> {
    if tag == "S" then Some(Str)
    else if tag == "DT" then Some(DateTime)
    else if tag == "TS" then Some(Duration)
    else if tag == "Version" then Some(Version)
    else if tag == "URI" then Some(Uri)
    else if tag == "XD" then Some(Xml)
    else if tag == "SBK" || tag == "SCT" then Some(ScriptBlock)
    else if tag == "SS" then Some(SecureString)
    else None
  }

  predicate IsScalarTag(tag: string) {
    IntKindOf(tag).Some? || TextKindOf(tag).Some? || tag == "B" || tag == "D" || tag == "C" || tag == "BA" || tag == "G"
  }

  function Lower(s: string): string {
    if s == "" then "" else [if 'A' <= s[0] <= 'Z' then s[0] + ' ' else s[0]] + Lower(s[1..])
  }

  function BoolOf(s: string): Option<bool> {
    if s == "true" || s == "1" then Some(true)
    else if s == "false" || s == "0" then Some(false)
    else None
  }

  function CharOf(code: nat): char {
    if IsScalar(code) then code as char else '\U{FFFD}'
  }

  function OrBad<T>(r: Option<T>, tag: string): Result<T, Fault> {
    match r case Some(v) => Ok(v) case None => Err(BadScalar(tag))
  }

  /** The value of a scalar element with that text. */
  function ScalarOf(tag: string, text: string): Result<Value, Fault>
    requires IsScalarTag(tag)
  {
    if TextKindOf(tag).Some? then Ok(Textual(TextKindOf(tag).value, text))
    else if IntKindOf(tag).Some? then
      var k := IntKindOf(tag).value;
      var i :- OrBad(ParseInt(Trim(text), Lowest(k), Highest(k)), tag);
      Ok(Int(k, i))
    else if tag == "B" then
      var b :- OrBad(BoolOf(Lower(Trim(text))), tag);
      Ok(Bool(b))
    else if tag == "D" then Ok(Decimal(Trim(text)))
    else if tag == "C" then
      var code :- OrBad(ParseInt(Trim(text), 0, U32_MAX), tag);
      if code < 0 then Err(BadScalar(tag)) else Ok(Char(CharOf(code)))
    else if tag == "BA" then
      var bytes :- OrBad(Base64.Decode(Trim(text)), tag);
      Ok(Bytes(bytes))
    else
      var g :- OrBad(ParseGuid(Trim(text)), tag);
      Ok(GuidValue(g))
  }

  /** `parse_empty`: a self-closed element outside an object body. */
  function ParseEmpty(p: Policy, d: Dec, tag: string, attrs: seq<Attr>, depth: nat): Result<Out<Option<Value>>, Fault> {
    if tag == "Nil" then Ok(Out(Some(Null), d))
    else if tag == "Ref" then
      var r :- ResolveRef(p, d, attrs, depth, 1);
      Ok(Out(Some(r.value), r.dec))
    else if tag == "S" then Ok(Out(Some(Textual(Str, "")), d))
    else if tag == "SBK" || tag == "SCT" then Ok(Out(Some(Textual(ScriptBlock, "")), d))
    else Ok(Out(None, d))
  }

  // ---- Elements ----

  predicate NoLonger<T>(r: Result<Out<T>, Fault>, d: Dec) {
    r.Ok? ==> |r.value.dec.rest| <= |d.rest|
  }

  predicate Shorter<T>(r: Result<Out<T>, Fault>, d: Dec) {
    r.Ok? ==> |r.value.dec.rest| < |d.rest|
  }

  /** `parse_element`, the start tag just read: the nesting guard around `parse_element_inner`. */
  function ParseElement(p: Policy, d: Dec, tag: string, attrs: seq<Attr>, depth: nat): (r: Result<Out<Option<Value>>, Fault>)
    ensures NoLonger(r, d)
    decreases |d.rest|, 3
  {
    if depth >= MAX_NESTING_DEPTH then Err(TooDeep) else ParseInner(p, d, tag, attrs, depth + 1)
  }

  function ParseInner(p: Policy, d: Dec, tag: string, attrs: seq<Attr>, depth: nat): (r: Result<Out<Option<Value>>, Fault>)
    ensures NoLonger(r, d)
    decreases |d.rest|, 2
  {
    if tag == "Obj" then
      var id :- RefIdOf(attrs);
      var o :- ParseObjBody(p, d, depth, [], [], None);
      var kept :- Keep(p, o.dec, id, o.value);
      Ok(Out(Some(o.value), kept))
    else if tag == "Ref" then
      var v :- ResolveRef(p, d, attrs, depth, 0);
      var rest :- SkipToEnd(v.dec.rest, 1);
      Ok(Out(Some(v.value), v.dec.(rest := rest)))
    else if IsScalarTag(tag) then
      var t :- ReadText(d.rest, tag, "");
      var v :- ScalarOf(tag, t.value);
      Ok(Out(Some(v), d.(rest := t.rest)))
    else
      var rest :- SkipToEnd(d.rest, 1);
      Ok(Out(None, d.(rest := rest)))
  }

  /** The type names of a `<TNRef>`, if they are known. */
  function NamesOf(d: Dec, id: Option<string>, names: seq<string>): seq<string> {
    if id.Some? && id.value in d.typeNames then d.typeNames[id.value] else names
  }

  /** The object of a finished body: an embedded value shows only where there is no property. */
  function Finish(names: seq<string>, props: seq<Prop>, embedded: Option<Value>): Value {
    Object(names, None, if embedded.Some? && props == [] then [Prop(VALUE, embedded.value)] else props)
  }

  predicate IsListTag(tag: string) {
    tag == "LST" || tag == "IE" || tag == "QUE" || tag == "STK"
  }

  /** What one child of an object body contributes. */
  datatype Child = Child(names: seq<string>, props: seq<Prop>, embedded: Option<Value>)

  /** One child element of an object body, its start tag just read. */
  function ParseChild(p: Policy, d: Dec, tag: string, attrs: seq<Attr>, depth: nat, c: Child): (r: Result<Out<Child>, Fault>)
    ensures NoLonger(r, d)
    decreases |d.rest|, 4
  {
    if tag == "MS" || tag == "Props" then
      var m :- ParseMemberSet(p, d, depth, c.props, tag);
      Ok(Out(c.(props := m.value), m.dec))
    else if tag == "TN" then
      var id :- RefIdOf(attrs);
      var t :- ParseTypeNames(d.rest, []);
      var known := if id.Some? then d.typeNames[id.value := t.value] else d.typeNames;
      Ok(Out(c.(names := t.value), d.(rest := t.rest, typeNames := known)))
    else if tag == "TNRef" then
      var id :- RefIdOf(attrs);
      var rest :- SkipToEnd(d.rest, 1);
      Ok(Out(c.(names := NamesOf(d, id, c.names)), d.(rest := rest)))
    else if IsListTag(tag) then
      var l :- ParseList(p, d, depth, [], tag);
      Ok(Out(c.(embedded := Some(List(l.value))), l.dec))
    else if tag == "DCT" then
      var l :- ParseDict(p, d, depth, []);
      Ok(Out(c.(embedded := Some(Dict(l.value))), l.dec))
    else
      var v :- ParseElement(p, d, tag, attrs, depth);
      Ok(Out(if c.embedded.None? then c.(embedded := v.value) else c, v.dec))
  }

  /** `parse_obj_body`, with what it has gathered so far. */
  function ParseObjBody(p: Policy, d: Dec, depth: nat, names: seq<string>, props: seq<Prop>, embedded: Option<Value>)
      : (r: Result<Out<Value>, Fault>)
    ensures Shorter(r, d)
    decreases |d.rest|, 0
  {
    if d.rest == [] then Err(UnexpectedEof)
    else
      var after := d.(rest := d.rest[1..]);
      match d.rest[0]
      case Bad => Err(Malformed)
      case Start(tag, attrs) =>
        var c :- ParseChild(p, after, tag, attrs, depth, Child(names, props, embedded));
        ParseObjBody(p, c.dec, depth, c.value.names, c.value.props, c.value.embedded)
      case Empty(tag, attrs) =>
        if tag == "TNRef" then
          var id :- RefIdOf(attrs);
          ParseObjBody(p, after, depth, NamesOf(d, id, names), props, embedded)
        else ParseObjBody(p, after, depth, names, props, embedded)
      case End(tag) =>
        if tag == "Obj" then Ok(Out(Finish(names, props, embedded), after))
        else ParseObjBody(p, after, depth, names, props, embedded)
      case _ => ParseObjBody(p, after, depth, names, props, embedded)
  }

  /** A name that is missing reads as the empty one. */
  function NameOrEmpty(attrs: seq<Attr>): Result<string, Fault> {
    var name :- NameOf(attrs);
    Ok(name.UnwrapOr(""))
  }

  /** A self-closed member. */
  function EmptyMember(p: Policy, d: Dec, tag: string, attrs: seq<Attr>, depth: nat, props: seq<Prop>)
      : Result<Out<seq<Prop>>, Fault>
  {
    if tag == "Nil" then
      var name :- NameOf(attrs);
      Ok(Out(if name.Some? then Insert(props, name.value, Null) else props, d))
    else
      var v :- ParseEmpty(p, d, tag, attrs, depth);
      if v.value.None? then Ok(Out(props, v.dec))
      else
        var name :- NameOrEmpty(attrs);
        Ok(Out(Insert(props, name, v.value.value), v.dec))
  }

  lemma EmptyMemberKeepsRest(p: Policy, d: Dec, tag: string, attrs: seq<Attr>, depth: nat, props: seq<Prop>)
    ensures var r := EmptyMember(p, d, tag, attrs, depth, props); r.Ok? ==> r.value.dec.rest == d.rest
  {
  }

  lemma ParseEmptyKeepsRest(p: Policy, d: Dec, tag: string, attrs: seq<Attr>, depth: nat)
    ensures var r := ParseEmpty(p, d, tag, attrs, depth); r.Ok? ==> r.value.dec.rest == d.rest
  {
  }

  /** `parse_member_set`, with the properties so far. */
  function ParseMemberSet(p: Policy, d: Dec, depth: nat, props: seq<Prop>, closing: string)
      : (r: Result<Out<seq<Prop>>, Fault>)
    ensures Shorter(r, d)
    decreases |d.rest|, 0
  {
    if d.rest == [] then Err(UnexpectedEof)
    else
      var after := d.(rest := d.rest[1..]);
      match d.rest[0]
      case Bad => Err(Malformed)
      case Start(tag, attrs) =>
        var name :- NameOrEmpty(attrs);
        var v :- ParseElement(p, after, tag, attrs, depth);
        ParseMemberSet(p, v.dec, depth, if v.value.Some? then Insert(props, name, v.value.value) else props, closing)
      case Empty(tag, attrs) =>
        EmptyMemberKeepsRest(p, after, tag, attrs, depth, props);
        var m :- EmptyMember(p, after, tag, attrs, depth, props);
        ParseMemberSet(p, m.dec, depth, m.value, closing)
      case End(tag) =>
        if tag == closing then Ok(Out(props, after)) else ParseMemberSet(p, after, depth, props, closing)
      case _ => ParseMemberSet(p, after, depth, props, closing)
  }

  /** `parse_list`, with the items so far. */
  function ParseList(p: Policy, d: Dec, depth: nat, items: seq<Value>, closing: string)
      : (r: Result<Out<seq<Value>>, Fault>)
    ensures Shorter(r, d)
    decreases |d.rest|, 0
  {
    if d.rest == [] then Err(UnexpectedEof)
    else
      var after := d.(rest := d.rest[1..]);
      match d.rest[0]
      case Bad => Err(Malformed)
      case Start(tag, attrs) =>
        var v :- ParseElement(p, after, tag, attrs, depth);
        ParseList(p, v.dec, depth, items + v.value.ToSeq(), closing)
      case Empty(tag, attrs) =>
        ParseEmptyKeepsRest(p, after, tag, attrs, depth);
        var v :- ParseEmpty(p, after, tag, attrs, depth);
        ParseList(p, v.dec, depth, items + v.value.ToSeq(), closing)
      case End(tag) =>
        if tag == closing then Ok(Out(items, after)) else ParseList(p, after, depth, items, closing)
      case _ => ParseList(p, after, depth, items, closing)
  }

  /** `parse_dict`, with the entries so far. */
  function ParseDict(p: Policy, d: Dec, depth: nat, entries: seq<Entry>): (r: Result<Out<seq<Entry>>, Fault>)
    ensures Shorter(r, d)
    decreases |d.rest|, 0
  {
    if d.rest == [] then Err(UnexpectedEof)
    else
      var after := d.(rest := d.rest[1..]);
      match d.rest[0]
      case Bad => Err(Malformed)
      case Start(tag, _) =>
        if tag == "En" then
          var e :- ParseDictEntry(p, after, depth, Entry(Null, Null));
          ParseDict(p, e.dec, depth, entries + [e.value])
        else ParseDict(p, after, depth, entries)
      case End(tag) => if tag == "DCT" then Ok(Out(entries, after)) else ParseDict(p, after, depth, entries)
      case _ => ParseDict(p, after, depth, entries)
  }

  function SetEntry(e: Entry, name: string, v: Value): Entry {
    if name == "Key" then e.(key := v) else if name == "Value" then e.(val := v) else e
  }

  /** A self-closed key or value. */
  function EmptyEntry(p: Policy, d: Dec, tag: string, attrs: seq<Attr>, depth: nat, e: Entry)
      : (r: Result<Out<Entry>, Fault>)
  {
    var v :- ParseEmpty(p, d, tag, attrs, depth);
    if v.value.None? then Ok(Out(e, v.dec))
    else
      var name :- NameOrEmpty(attrs);
      Ok(Out(SetEntry(e, name, v.value.value), v.dec))
  }

  lemma EmptyEntryKeepsRest(p: Policy, d: Dec, tag: string, attrs: seq<Attr>, depth: nat, e: Entry)
    ensures var r := EmptyEntry(p, d, tag, attrs, depth, e); r.Ok? ==> r.value.dec.rest == d.rest
  {
  }

  /** `parse_dict_entry`, with the key and value so far. */
  function ParseDictEntry(p: Policy, d: Dec, depth: nat, e: Entry): (r: Result<Out<Entry>, Fault>)
    ensures Shorter(r, d)
    decreases |d.rest|, 0
  {
    if d.rest == [] then Err(UnexpectedEof)
    else
      var after := d.(rest := d.rest[1..]);
      match d.rest[0]
      case Bad => Err(Malformed)
      case Start(tag, attrs) =>
        var name :- NameOrEmpty(attrs);
        var v :- ParseElement(p, after, tag, attrs, depth);
        ParseDictEntry(p, v.dec, depth, if v.value.Some? then SetEntry(e, name, v.value.value) else e)
      case Empty(tag, attrs) =>
        EmptyEntryKeepsRest(p, after, tag, attrs, depth, e);
        var m :- EmptyEntry(p, after, tag, attrs, depth, e);
        ParseDictEntry(p, m.dec, depth, m.value)
      case End(tag) => if tag == "En" then Ok(Out(e, after)) else ParseDictEntry(p, after, depth, e)
      case _ => ParseDictEntry(p, after, depth, e)
  }

  /** `parse_type_names`, with the names so far. */
  function ParseTypeNames(rest: seq<Token>, names: seq<string>): (r: Result<Taken<seq<string>>, Fault>)
    ensures r.Ok? ==> |r.value.rest| < |rest|
    decreases |rest|
  {
    if rest == [] then Err(UnexpectedEof)
    else
      match rest[0]
      case Bad => Err(Malformed)
      case Start(tag, _) =>
        if tag == "T" then
          var t :- ReadText(rest[1..], "T", "");
          ParseTypeNames(t.rest, names + [t.value])
        else ParseTypeNames(rest[1..], names)
      case End(tag) => if tag == "TN" then Ok(Taken(names, rest[1..])) else ParseTypeNames(rest[1..], names)
      case _ => ParseTypeNames(rest[1..], names)
  }

  /** The top-level loop of `parse_clixml`, with the values so far. */
  function ParseDocument(p: Policy, d: Dec, values: seq<Value>): (r: Result<Out<seq<Value>>, Fault>)
    decreases |d.rest|
  {
    if d.rest == [] then Ok(Out(values, d))
    else
      var after := d.(rest := d.rest[1..]);
      match d.rest[0]
      case Bad => Err(Malformed)
      case Start(tag, attrs) =>
        var v :- ParseElement(p, after, tag, attrs, 0);
        ParseDocument(p, v.dec, values + v.value.ToSeq())
      case Empty(tag, attrs) =>
        ParseEmptyKeepsRest(p, after, tag, attrs, 0);
        var v :- ParseEmpty(p, after, tag, attrs, 0);
        ParseDocument(p, v.dec, values + v.value.ToSeq())
      case _ => ParseDocument(p, after, values)
  }

  function Fresh(toks: seq<Token>): Dec {
    Dec(toks, map[], 0, [], map[])
  }

  /** The limits `parse_clixml` puts on a document of `length` bytes. */
  function Limits(toks: seq<Token>, length: nat): Policy {
    Bounded(ReferencedIds(toks), RefBudget(length))
  }

  /** `parse_clixml`. */
  function ParseClixml(toks: seq<Token>, length: nat): Result<seq<Value>, Fault> {
    var r :- ParseDocument(Limits(toks, length), Fresh(toks), []);
    Ok(r.value)
  }

  /** The plain reading of a document: every object kept, no limit on references. */
  function ParsePlainly(toks: seq<Token>): Result<seq<Value>, Fault> {
    var r :- ParseDocument(Unbounded, Fresh(toks), []);
    Ok(r.value)
  }
}
