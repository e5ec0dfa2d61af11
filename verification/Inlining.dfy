/** What a reference means: a document with references reads as the document with copies in their place. */
module Inlining {
  import opened Common
  import opened Text
  import opened Escapes
  import opened Xml
  import opened Values
  import opened Decoder
  import opened References

  // ---- Documents as trees ----

  /** A piece of a document: an element with its content, a self-closed one, or text and the like. */
  datatype Node =
    | Element(tag: string, attrs: seq<Attr>, kids: seq<Node>)
    | Closed(tag: string, attrs: seq<Attr>)
    | Leaf(token: Token)

  /** The events of a piece. */
  function Events(n: Node): seq<Token>
    decreases n, 1
  {
    match n
    case Element(tag, attrs, kids) => [Start(tag, attrs)] + (EventsOf(kids) + [End(tag)])
    case Closed(tag, attrs) => [Empty(tag, attrs)]
    case Leaf(token) => [token]
  }

  function EventsOf(ns: seq<Node>): seq<Token>
    decreases ns, 0
  {
    if ns == [] then [] else Events(ns[0]) + EventsOf(ns[1..])
  }

  // ---- Tidy documents ----

  predicate IsText(n: Node) {
    n.Leaf? && (n.token.Chars? || n.token.Ref? || n.token.CData? || n.token.Other?)
  }

  predicate AllText(ns: seq<Node>) {
    forall i :: 0 <= i < |ns| ==> IsText(ns[i])
  }

  /** Closed wherever it is opened, and no syntax error: content that is skipped. */
  predicate Balanced(n: Node)
    decreases n, 1
  {
    match n
    case Element(_, _, kids) => AllBalanced(kids)
    case Closed(_, _) => true
    case Leaf(_) => IsText(n)
  }

  predicate AllBalanced(ns: seq<Node>)
    decreases ns, 0
  {
    ns == [] || (Balanced(ns[0]) && AllBalanced(ns[1..]))
  }

  /** A type-name list holds names. */
  predicate TidyNames(ns: seq<Node>) {
    forall i :: 0 <= i < |ns| ==>
      IsText(ns[i]) || ns[i].Closed? || (ns[i].Element? && ns[i].tag == "T" && AllText(ns[i].kids))
  }

  /** An element where values stand: every kind has the content that belongs to it, every id can be read. */
  predicate Tidy(n: Node)
    decreases n, 1
  {
    match n
    case Element(tag, attrs, kids) =>
      && RefIdOf(attrs).Ok?
      && (if tag == "Obj" then TidyBody(kids) else if IsScalarTag(tag) then AllText(kids) else AllBalanced(kids))
    case Closed(_, attrs) => RefIdOf(attrs).Ok?
    case Leaf(_) => IsText(n)
  }

  predicate AllTidy(ns: seq<Node>)
    decreases ns, 0
  {
    ns == [] || (Tidy(ns[0]) && AllTidy(ns[1..]))
  }

  /** What stands in an object. */
  predicate TidyPart(n: Node)
    decreases n, 2
  {
    match n
    case Element(tag, attrs, kids) =>
      if tag == "MS" || tag == "Props" || IsListTag(tag) then AllTidy(kids)
      else if tag == "DCT" then TidyDict(kids)
      else if tag == "TN" then RefIdOf(attrs).Ok? && TidyNames(kids)
      else if tag == "TNRef" then RefIdOf(attrs).Ok? && AllBalanced(kids)
      else Tidy(n)
    case Closed(_, attrs) => RefIdOf(attrs).Ok?
    case Leaf(_) => IsText(n)
  }

  predicate TidyBody(ns: seq<Node>)
    decreases ns, 0
  {
    ns == [] || (TidyPart(ns[0]) && TidyBody(ns[1..]))
  }

  /** A dictionary holds entries. */
  predicate TidyDict(ns: seq<Node>)
    decreases ns, 0
  {
    ns == []
    || ((match ns[0]
         case Element(tag, _, kids) => tag == "En" && AllTidy(kids)
         case Closed(_, _) => true
         case Leaf(_) => IsText(ns[0]))
        && TidyDict(ns[1..]))
  }

  // ---- Copies in the place of references ----

  /** The objects finished so far, by id, as their content; and the type-name lists. */
  datatype Table = Table(objects: map<string, seq<Node>>, lists: map<string, seq<Node>>)

  function OnlyName(attrs: seq<Attr>): seq<Attr> {
    if attrs == [] then [] else (if attrs[0].key == "N" then [attrs[0]] else []) + OnlyName(attrs[1..])
  }

  function IdIn(attrs: seq<Attr>): Option<string> {
    if RefIdOf(attrs).Ok? then RefIdOf(attrs).value else None
  }

  /** A reference to a finished object: a copy of the object, under the name of the reference. */
  function CopyOf(t: Table, n: Node): Node
    requires !n.Leaf?
  {
    var id := IdIn(n.attrs);
    if id.Some? && id.value in t.objects then Element("Obj", OnlyName(n.attrs), t.objects[id.value])
    else n.(attrs := OnlyName(n.attrs))
  }

  /** An element without ids and references, and the table after it. */
  function Copied(n: Node, t: Table): (Node, Table)
    decreases n, 1
  {
    match n
    case Element(tag, attrs, kids) =>
      if tag == "Obj" then
        var (body, t') := CopiedBody(kids, t);
        var id := IdIn(attrs);
        (Element(tag, OnlyName(attrs), body),
         if id.Some? then t'.(objects := t'.objects[id.value := body]) else t')
      else (if tag == "Ref" then CopyOf(t, n) else n, t)
    case Closed(tag, _) => (if tag == "Ref" then CopyOf(t, n) else n, t)
    case Leaf(_) => (n, t)
  }

  function AllCopied(ns: seq<Node>, t: Table): (seq<Node>, Table)
    decreases ns, 0
  {
    if ns == [] then ([], t)
    else
      var (n, t') := Copied(ns[0], t);
      var (more, t'') := AllCopied(ns[1..], t');
      ([n] + more, t'')
  }

  /** A list of type names known under the id of a `<TNRef>`. */
  function ListOf(t: Table, n: Node): Node
    requires !n.Leaf?
  {
    var id := IdIn(n.attrs);
    if id.Some? && id.value in t.lists then Element("TN", [], t.lists[id.value]) else n.(attrs := [])
  }

  function CopiedPart(n: Node, t: Table): (Node, Table)
    decreases n, 2
  {
    match n
    case Element(tag, attrs, kids) =>
      if tag == "MS" || tag == "Props" || IsListTag(tag) then
        var (inner, t') := AllCopied(kids, t);
        (Element(tag, attrs, inner), t')
      else if tag == "DCT" then
        var (inner, t') := CopiedDict(kids, t);
        (Element(tag, attrs, inner), t')
      else if tag == "TN" then
        var id := IdIn(attrs);
        (Element(tag, [], kids), if id.Some? then t.(lists := t.lists[id.value := kids]) else t)
      else if tag == "TNRef" then (ListOf(t, n), t)
      else Copied(n, t)
    case Closed(tag, _) => (if tag == "TNRef" then ListOf(t, n) else n, t)
    case Leaf(_) => (n, t)
  }

  function CopiedBody(ns: seq<Node>, t: Table): (seq<Node>, Table)
    decreases ns, 0
  {
    if ns == [] then ([], t)
    else
      var (n, t') := CopiedPart(ns[0], t);
      var (more, t'') := CopiedBody(ns[1..], t');
      ([n] + more, t'')
  }

  function CopiedDict(ns: seq<Node>, t: Table): (seq<Node>, Table)
    decreases ns, 0
  {
    if ns == [] then ([], t)
    else
      match ns[0]
      case Element(tag, attrs, kids) =>
        var (inner, t') := AllCopied(kids, t);
        var (more, t'') := CopiedDict(ns[1..], t');
        ([Element(tag, attrs, inner)] + more, t'')
      case _ =>
        var (more, t') := CopiedDict(ns[1..], t);
        ([ns[0]] + more, t')
  }

  /** A document with copies in the place of its references. */
  function WithCopies(ns: seq<Node>): seq<Node> {
    AllCopied(ns, Table(map[], map[])).0
  }

  // ---- Pieces that read alike wherever they stand ----

  lemma EventsFirst(ns: seq<Node>, tail: seq<Token>)
    requires ns != []
    ensures EventsOf(ns) + tail == Events(ns[0]) + (EventsOf(ns[1..]) + tail)
  {
    hide Events;
    Regroup(Events(ns[0]), EventsOf(ns[1..]), tail);
  }

  /** The first event of what is left, and what is left after it. */
  lemma EventsStep(ns: seq<Node>, tail: seq<Token>)
    ensures ns == [] ==> EventsOf(ns) + tail == tail
    ensures ns != [] && ns[0].Leaf? ==>
      var toks := EventsOf(ns) + tail;
      toks != [] && toks[0] == ns[0].token && toks[1..] == EventsOf(ns[1..]) + tail
    ensures ns != [] && ns[0].Closed? ==>
      var toks := EventsOf(ns) + tail;
      toks != [] && toks[0] == Empty(ns[0].tag, ns[0].attrs) && toks[1..] == EventsOf(ns[1..]) + tail
    ensures ns != [] && ns[0].Element? ==>
      var toks := EventsOf(ns) + tail;
      && toks != [] && toks[0] == Start(ns[0].tag, ns[0].attrs)
      && toks[1..] == EventsOf(ns[0].kids) + ([End(ns[0].tag)] + (EventsOf(ns[1..]) + tail))
  {
    hide EventsOf;
    if ns == [] {
      NoEvents();
      assert [] + tail == tail;
    } else {
      EventsFirst(ns, tail);
      var more := EventsOf(ns[1..]) + tail;
      if ns[0].Element? {
        assert ([Start(ns[0].tag, ns[0].attrs)] + (EventsOf(ns[0].kids) + [End(ns[0].tag)])) + more
            == [Start(ns[0].tag, ns[0].attrs)] + (EventsOf(ns[0].kids) + ([End(ns[0].tag)] + more));
      }
    }
  }

  lemma NoEvents()
    ensures EventsOf([]) == []
  {
  }

  lemma FirstOf<T>(x: T, tail: seq<T>)
    ensures [x] + tail != [] && ([x] + tail)[0] == x && ([x] + tail)[1..] == tail
  {
  }

  /** Text reads the same in front of any tail. */
  lemma {:induction false} TextReadsAlike(ns: seq<Node>, tag: string, a: seq<Token>, b: seq<Token>, out: string)
    requires AllText(ns)
    ensures var x := ReadText(EventsOf(ns) + ([End(tag)] + a), tag, out);
      var y := ReadText(EventsOf(ns) + ([End(tag)] + b), tag, out);
      match x case Ok(t) => t.rest == a && y == Ok(Taken(t.value, b)) case Err(e) => y == Err(e)
    decreases ns
  {
    hide EventsOf, Escapes.Decode, Escapes.Resolve;
    EventsStep(ns, [End(tag)] + a);
    EventsStep(ns, [End(tag)] + b);
    FirstOf(End(tag), a);
    FirstOf(End(tag), b);
    if ns != [] {
      assert IsText(ns[0]);
      match ns[0].token
      case Chars(t) => TextReadsAlike(ns[1..], tag, a, b, out + t);
      case CData(t) => TextReadsAlike(ns[1..], tag, a, b, out + t);
      case Ref(name) =>
        if Escapes.Resolve(name).Some? {
          TextReadsAlike(ns[1..], tag, a, b, out + [Escapes.Resolve(name).value]);
        }
      case Other => TextReadsAlike(ns[1..], tag, a, b, out);
    }
  }

  /** What is balanced is skipped. */
  lemma {:induction false} BalancedIsSkipped(n: Node, tail: seq<Token>, depth: nat)
    requires Balanced(n) && 0 < depth
    ensures SkipToEnd(Events(n) + tail, depth) == SkipToEnd(tail, depth)
    decreases n, 1
  {
    hide EventsOf;
    match n
    case Element(tag, attrs, kids) =>
      assert Events(n) + tail == [Start(tag, attrs)] + (EventsOf(kids) + ([End(tag)] + tail));
      FirstOf(Start(tag, attrs), EventsOf(kids) + ([End(tag)] + tail));
      AllAreSkipped(kids, [End(tag)] + tail, depth + 1);
      FirstOf(End(tag), tail);
    case Closed(tag, attrs) => FirstOf(Empty(tag, attrs), tail);
    case Leaf(token) => FirstOf(token, tail);
  }

  lemma {:induction false} AllAreSkipped(ns: seq<Node>, tail: seq<Token>, depth: nat)
    requires AllBalanced(ns) && 0 < depth
    ensures SkipToEnd(EventsOf(ns) + tail, depth) == SkipToEnd(tail, depth)
    decreases ns, 0
  {
    hide Events, SkipToEnd;
    if ns == [] {
      assert [] + tail == tail;
    } else {
      EventsFirst(ns, tail);
      BalancedIsSkipped(ns[0], EventsOf(ns[1..]) + tail, depth);
      AllAreSkipped(ns[1..], tail, depth);
    }
  }

  lemma SkipsContent(kids: seq<Node>, tag: string, tail: seq<Token>)
    requires AllBalanced(kids)
    ensures SkipToEnd(EventsOf(kids) + ([End(tag)] + tail), 1) == Ok(tail)
  {
    AllAreSkipped(kids, [End(tag)] + tail, 1);
    FirstOf(End(tag), tail);
  }

  lemma {:induction false} NamesReadAlike(ns: seq<Node>, a: seq<Token>, b: seq<Token>, names: seq<string>)
    requires TidyNames(ns)
    ensures var x := ParseTypeNames(EventsOf(ns) + ([End("TN")] + a), names);
      var y := ParseTypeNames(EventsOf(ns) + ([End("TN")] + b), names);
      match x case Ok(t) => t.rest == a && y == Ok(Taken(t.value, b)) case Err(e) => y == Err(e)
    decreases ns
  {
    hide EventsOf, ReadText;
    EventsStep(ns, [End("TN")] + a);
    EventsStep(ns, [End("TN")] + b);
    FirstOf(End("TN"), a);
    FirstOf(End("TN"), b);
    if ns != [] {
      if ns[0].Element? {
        var a', b' := EventsOf(ns[1..]) + ([End("TN")] + a), EventsOf(ns[1..]) + ([End("TN")] + b);
        TextReadsAlike(ns[0].kids, "T", a', b', "");
        var x := ReadText(EventsOf(ns[0].kids) + ([End("T")] + a'), "T", "");
        if x.Ok? {
          NamesReadAlike(ns[1..], a, b, names + [x.value.value]);
        }
      } else {
        NamesReadAlike(ns[1..], a, b, names);
      }
    }
  }

  // ---- Names ----

  lemma {:induction false} OnlyNameKeeps(attrs: seq<Attr>)
    ensures AttrValue(OnlyName(attrs), "N") == AttrValue(attrs, "N")
    ensures AttrValue(OnlyName(attrs), "RefId") == Ok(None)
  {
    hide Unescape, SpaceOut;
    if attrs != [] {
      assert |"N"| != |"RefId"|;
      OnlyNameKeeps(attrs[1..]);
      if attrs[0].key == "N" {
        assert OnlyName(attrs)[1..] == OnlyName(attrs[1..]);
      } else {
        assert OnlyName(attrs) == OnlyName(attrs[1..]);
      }
    }
  }

  lemma NameKept(attrs: seq<Attr>)
    ensures NameOf(OnlyName(attrs)) == NameOf(attrs) && RefIdOf(OnlyName(attrs)) == Ok(None) && RefIdOf([]) == Ok(None)
    ensures IdIn(attrs).None? || RefIdOf(attrs) == Ok(IdIn(attrs))
  {
    hide AttrValue;
    OnlyNameKeeps(attrs);
    NoAttrs();
  }

  lemma NoAttrs()
    ensures AttrValue([], "RefId") == Ok(None)
  {
  }

  // ---- What a table stands for ----

  /** The body reads as the object `w` wherever it stands, and leaves nothing behind. */
  ghost predicate StandsAt(body: seq<Node>, w: Value, q: Policy, d: Dec, tail: seq<Token>, depth: nat) {
    var r := ParseObjBody(q, d.(rest := EventsOf(body) + ([End("Obj")] + tail)), depth, [], [], None);
    r == Err(TooDeep) || r == Ok(Out(w, d.(rest := tail)))
  }

  ghost predicate Stands(body: seq<Node>, w: Value) {
    forall q: Policy, d: Dec, tail: seq<Token>, depth: nat :: StandsAt(body, w, q, d, tail, depth)
  }

  ghost predicate NamesAt(list: seq<Node>, names: seq<string>, tail: seq<Token>) {
    ParseTypeNames(EventsOf(list) + ([End("TN")] + tail), []) == Ok(Taken(names, tail))
  }

  ghost predicate Lists(list: seq<Node>, names: seq<string>) {
    forall tail: seq<Token> :: NamesAt(list, names, tail)
  }

  /** The decoder knows the objects and type names of the table, under the same ids. */
  ghost predicate Holds(d: Dec, t: Table) {
    && d.refs.Keys == t.objects.Keys && (forall id :: id in t.objects ==> Stands(t.objects[id], d.refs[id]))
    && d.typeNames.Keys == t.lists.Keys && (forall id :: id in t.lists ==> Lists(t.lists[id], d.typeNames[id]))
  }

  lemma HoldsAt(d: Dec, rest: seq<Token>, t: Table)
    requires Holds(d, t)
    ensures Holds(d.(rest := rest), t)
  {
    hide Stands, Lists;
  }

  lemma HoldsObject(d: Dec, t: Table, id: string, w: Value, body: seq<Node>)
    requires Holds(d, t) && Stands(body, w)
    ensures Holds(d.(refs := d.refs[id := w]), t.(objects := t.objects[id := body]))
  {
    hide Stands, Lists;
  }

  lemma HoldsList(d: Dec, t: Table, id: string, names: seq<string>, list: seq<Node>)
    requires Holds(d, t) && Lists(list, names)
    ensures Holds(d.(typeNames := d.typeNames[id := names]), t.(lists := t.lists[id := list]))
  {
    hide Stands, Lists;
  }

  /**
   * Two readings: one from a state that holds the table, with references, and one without them. The second gives the
   * same value and only moves on, unless the copies nest too deep; if it starts no higher, faults are the same too.
   */
  ghost predicate Alike<T>(x: Result<Out<T>, Fault>, y: Result<Out<T>, Fault>, a: seq<Token>, b: Dec, t: Table,
                               deeper: bool) {
    match x
    case Ok(o) => o.dec.rest == a && Holds(o.dec, t) && (y == Err(TooDeep) || y == Ok(Out(o.value, b)))
    case Err(e) => deeper ==> y == Err(TooDeep) || y == Err(e)
  }

  // ---- Elements ----

  lemma RefIsNoOther()
    ensures !IsScalarTag("Ref") && !IsScalarTag("Obj") && !IsListTag("Ref") && !IsListTag("Obj")
    ensures !IsListTag("TN") && !IsListTag("TNRef") && !IsListTag("DCT") && !IsListTag("MS") && !IsListTag("Props")
  {
    assert |"Ref"| == 3 && |"Obj"| == 3;
  }

  /** A copy is an object, and reads as the one it copies. */
  lemma CopyReads(q: Policy, b: Dec, attrs: seq<Attr>, body: seq<Node>, w: Value, tail: seq<Token>, depth: nat)
    requires Stands(body, w) && RefIdOf(attrs) == Ok(None)
    ensures var r := ParseElement(q, b.(rest := EventsOf(body) + ([End("Obj")] + tail)), "Obj", attrs, depth);
      r == Err(TooDeep) || r == Ok(Out(Some(w), b.(rest := tail)))
  {
    hide ParseObjBody, RefIdOf, EventsOf;
    assert StandsAt(body, w, q, b, tail, depth + 1);
  }

  /** A reference under the plain policy. */
  lemma PlainReference(a: Dec, attrs: seq<Attr>, depth: nat, level: nat)
    requires RefIdOf(attrs).Ok?
    ensures var id := IdIn(attrs);
      ResolveRef(Unbounded, a, attrs, depth, level)
        == Ok(Out(if id.Some? && id.value in a.refs then a.refs[id.value] else Null, a))
  {
    hide RefIdOf;
  }

  /** A reference that names nothing finished is `Null`, and so is one without an id, under every policy. */
  lemma NothingNamed(q: Policy, b: Dec, attrs: seq<Attr>, depth: nat, level: nat)
    requires RefIdOf(attrs) == Ok(None)
    ensures ResolveRef(q, b, attrs, depth, level) == Ok(Out(Null, b))
  {
    hide RefIdOf;
  }

  /** A `<Ref>` with an end tag. */
  lemma OpenReferenceAlike(n: Node, t: Table, a: Dec, b: Dec, x: seq<Token>, y: seq<Token>, q: Policy, i: nat, j: nat)
    requires n.Element? && n.tag == "Ref" && Tidy(n) && Holds(a, t)
    ensures var m := CopyOf(t, n);
      Alike(ParseElement(Unbounded, a.(rest := EventsOf(n.kids) + ([End(n.tag)] + x)), n.tag, n.attrs, i),
            ParseElement(q, b.(rest := EventsOf(m.kids) + ([End(m.tag)] + y)), m.tag, m.attrs, j),
            x, b.(rest := y), t, i <= j)
  {
    hide RefIdOf, EventsOf, ResolveRef, SkipToEnd, ParseObjBody, Stands, Lists, IsScalarTag;
    RefIsNoOther();
    NameKept(n.attrs);
    var a' := a.(rest := EventsOf(n.kids) + ([End(n.tag)] + x));
    PlainReference(a', n.attrs, i + 1, 0);
    SkipsContent(n.kids, n.tag, x);
    var id := IdIn(n.attrs);
    if id.Some? && id.value in t.objects {
      CopyReads(q, b, OnlyName(n.attrs), t.objects[id.value], a.refs[id.value], y, j);
    } else {
      var b' := b.(rest := EventsOf(n.kids) + ([End(n.tag)] + y));
      NothingNamed(q, b', OnlyName(n.attrs), j + 1, 0);
      SkipsContent(n.kids, n.tag, y);
    }
  }

  lemma OtherElementAlike(n: Node, t: Table, a: Dec, b: Dec, x: seq<Token>, y: seq<Token>, q: Policy, i: nat, j: nat)
    requires n.Element? && n.tag != "Ref" && n.tag != "Obj" && Tidy(n) && Holds(a, t)
    ensures Alike(ParseElement(Unbounded, a.(rest := EventsOf(n.kids) + ([End(n.tag)] + x)), n.tag, n.attrs, i),
                  ParseElement(q, b.(rest := EventsOf(n.kids) + ([End(n.tag)] + y)), n.tag, n.attrs, j),
                  x, b.(rest := y), t, i <= j)
  {
    hide RefIdOf, EventsOf, SkipToEnd, ReadText, ScalarOf, IsScalarTag, Stands, Lists;
    if IsScalarTag(n.tag) {
      TextReadsAlike(n.kids, n.tag, x, y, "");
    } else {
      SkipsContent(n.kids, n.tag, x);
      SkipsContent(n.kids, n.tag, y);
    }
  }

  /** One element. */
  lemma ElementAlike(n: Node, t: Table, a: Dec, b: Dec, x: seq<Token>, y: seq<Token>, q: Policy, i: nat, j: nat)
    requires n.Element? && Tidy(n) && Holds(a, t)
    ensures var (m, t') := Copied(n, t);
      m.Element?
      && Alike(ParseElement(Unbounded, a.(rest := EventsOf(n.kids) + ([End(n.tag)] + x)), n.tag, n.attrs, i),
               ParseElement(q, b.(rest := EventsOf(m.kids) + ([End(m.tag)] + y)), m.tag, m.attrs, j),
               x, b.(rest := y), t', i <= j)
    decreases n, 1
  {
    hide CopiedBody, EventsOf, ParseElement, Alike, Stands, Holds, RefIdOf;
    if n.tag == "Ref" {
      OpenReferenceAlike(n, t, a, b, x, y, q, i, j);
    } else if n.tag == "Obj" {
      ObjectAlike(n, t, a, b, x, y, q, i, j);
    } else {
      OtherElementAlike(n, t, a, b, x, y, q, i, j);
    }
  }

  lemma ObjectAlike(n: Node, t: Table, a: Dec, b: Dec, x: seq<Token>, y: seq<Token>, q: Policy, i: nat, j: nat)
    requires n.Element? && n.tag == "Obj" && Tidy(n) && Holds(a, t)
    ensures var (m, t') := Copied(n, t);
      Alike(ParseElement(Unbounded, a.(rest := EventsOf(n.kids) + ([End("Obj")] + x)), "Obj", n.attrs, i),
            ParseElement(q, b.(rest := EventsOf(m.kids) + ([End("Obj")] + y)), "Obj", m.attrs, j),
            x, b.(rest := y), t', i <= j)
    decreases n, 0
  {
    hide CopiedBody, EventsOf, ParseObjBody, Stands, Holds, RefIdOf, StandsAt;
    NameKept(n.attrs);
    BodyAlike(n.kids, t, a, b, x, y, q, i + 1, j + 1, [], [], None);
    var (body, t1) := CopiedBody(n.kids, t);
    var o := ParseObjBody(Unbounded, a.(rest := EventsOf(n.kids) + ([End("Obj")] + x)), i + 1, [], [], None);
    if i < MAX_NESTING_DEPTH && o.Ok? && IdIn(n.attrs).Some? {
      forall q', d, tail, depth ensures StandsAt(body, o.value.value, q', d, tail, depth) {
        BodyAlike(n.kids, t, a, d, x, tail, q', i + 1, depth, [], [], None);
        StandsHere(body, o.value.value, q', d, tail, depth);
      }
      assert Stands(body, o.value.value) by { StandsEverywhere(body, o.value.value); }
      HoldsObject(o.value.dec, t1, IdIn(n.attrs).value, o.value.value, body);
    }
  }

  lemma StandsHere(body: seq<Node>, w: Value, q: Policy, d: Dec, tail: seq<Token>, depth: nat)
    requires var r := ParseObjBody(q, d.(rest := EventsOf(body) + ([End("Obj")] + tail)), depth, [], [], None);
      r == Err(TooDeep) || r == Ok(Out(w, d.(rest := tail)))
    ensures StandsAt(body, w, q, d, tail, depth)
  {
  }

  lemma StandsEverywhere(body: seq<Node>, w: Value)
    requires forall q: Policy, d: Dec, tail: seq<Token>, depth: nat :: StandsAt(body, w, q, d, tail, depth)
    ensures Stands(body, w)
  {
  }

  // ---- The loops ----

  lemma CopiedFirst(ns: seq<Node>, t: Table)
    ensures ns == [] ==> AllCopied(ns, t) == ([], t)
    ensures ns != [] ==>
      var (m, t') := Copied(ns[0], t);
      var (ms, t'') := AllCopied(ns, t);
      && ms != [] && ms[0] == m && ms[1..] == AllCopied(ns[1..], t').0 && t'' == AllCopied(ns[1..], t').1
      && (ns[0].Leaf? ==> m == ns[0] && t' == t)
      && (ns[0].Closed? ==> t' == t && m == if ns[0].tag == "Ref" then CopyOf(t, ns[0]) else ns[0])
  {
    hide CopyOf, CopiedBody;
  }

  /** A self-closed element that is no reference. */
  lemma OtherClosedAlike(a: Dec, b: Dec, tag: string, attrs: seq<Attr>, q: Policy, i: nat, j: nat)
    requires tag != "Ref"
    ensures ParseEmpty(Unbounded, a, tag, attrs, i).Ok?
    ensures var r := ParseEmpty(Unbounded, a, tag, attrs, i).value;
      r.dec == a && ParseEmpty(q, b, tag, attrs, j) == Ok(Out(r.value, b))
  {
  }

  /** A self-closed reference: the object it names, or `Null`. */
  function Named(a: Dec, attrs: seq<Attr>): Value {
    var id := IdIn(attrs);
    if id.Some? && id.value in a.refs then a.refs[id.value] else Null
  }

  lemma ClosedReferenceAlike(n: Node, t: Table, a: Dec, b: Dec, y: seq<Token>, q: Policy, i: nat, j: nat)
    requires n.Closed? && n.tag == "Ref" && RefIdOf(n.attrs).Ok? && Holds(a, t)
    ensures ParseEmpty(Unbounded, a, "Ref", n.attrs, i) == Ok(Out(Some(Named(a, n.attrs)), a))
    ensures var m := CopyOf(t, n);
      && !m.Leaf? && m.attrs == OnlyName(n.attrs) && NameOf(m.attrs) == NameOf(n.attrs)
      && (m.Closed? ==> m.tag == "Ref" && ParseEmpty(q, b, "Ref", m.attrs, j) == Ok(Out(Some(Named(a, n.attrs)), b)))
      && (m.Element? ==>
            var r := ParseElement(q, b.(rest := EventsOf(m.kids) + ([End(m.tag)] + y)), m.tag, m.attrs, j);
            r == Err(TooDeep) || r == Ok(Out(Some(Named(a, n.attrs)), b.(rest := y))))
  {
    hide RefIdOf, NameOf, EventsOf, ResolveRef, ParseElement, Stands, Lists;
    NameKept(n.attrs);
    PlainReference(a, n.attrs, i, 1);
    var id := IdIn(n.attrs);
    if id.Some? && id.value in t.objects {
      CopyReads(q, b, OnlyName(n.attrs), t.objects[id.value], a.refs[id.value], y, j);
    } else {
      NothingNamed(q, b, OnlyName(n.attrs), j, 1);
    }
  }

  lemma {:induction false} ListAlike(ns: seq<Node>, t: Table, a: Dec, b: Dec, x: seq<Token>, y: seq<Token>, q: Policy,
                                     i: nat, j: nat, items: seq<Value>, closing: string)
    requires AllTidy(ns) && Holds(a, t)
    ensures var (ms, t') := AllCopied(ns, t);
      Alike(ParseList(Unbounded, a.(rest := EventsOf(ns) + ([End(closing)] + x)), i, items, closing),
            ParseList(q, b.(rest := EventsOf(ms) + ([End(closing)] + y)), j, items, closing),
            x, b.(rest := y), t', i <= j)
    decreases ns, 0
  {
    hide EventsOf, AllCopied, Copied, CopyOf, ParseElement, ParseEmpty, Holds, RefIdOf, NameOf, Named;
    var (ms, t1) := AllCopied(ns, t);
    var x', y' := [End(closing)] + x, [End(closing)] + y;
    CopiedFirst(ns, t);
    EventsStep(ns, x');
    EventsStep(ms, y');
    FirstOf(End(closing), x);
    FirstOf(End(closing), y);
    HoldsAt(a, x, t);
    if ns != [] {
      var more, rest := EventsOf(ns[1..]) + x', EventsOf(ms[1..]) + y';
      HoldsAt(a, more, t);
      match ns[0]
      case Leaf(_) => ListAlike(ns[1..], t, a, b, x, y, q, i, j, items, closing);
      case Closed(tag, attrs) =>
        if tag == "Ref" {
          ClosedReferenceAlike(ns[0], t, a.(rest := more), b, rest, q, i, j);
          if ms[0].Closed? { ClosedReferenceAlike(ns[0], t, a.(rest := more), b.(rest := rest), rest, q, i, j); }
        } else {
          OtherClosedAlike(a.(rest := more), b.(rest := rest), tag, attrs, q, i, j);
        }
        var r := ParseEmpty(Unbounded, a.(rest := more), tag, attrs, i);
        ListAlike(ns[1..], t, a, b, x, y, q, i, j, items + r.value.value.ToSeq(), closing);
      case Element(tag, attrs, kids) =>
        ElementAlike(ns[0], t, a, b, more, rest, q, i, j);
        var r := ParseElement(Unbounded, a.(rest := EventsOf(kids) + ([End(tag)] + more)), tag, attrs, i);
        if r.Ok? {
          ListAlike(ns[1..], Copied(ns[0], t).1, r.value.dec, b, x, y, q, i, j, items + r.value.value.ToSeq(), closing);
        }
    }
  }

  lemma {:induction false} MembersAlike(ns: seq<Node>, t: Table, a: Dec, b: Dec, x: seq<Token>, y: seq<Token>, q: Policy,
                                        i: nat, j: nat, props: seq<Prop>, closing: string)
    requires AllTidy(ns) && Holds(a, t)
    ensures var (ms, t') := AllCopied(ns, t);
      Alike(ParseMemberSet(Unbounded, a.(rest := EventsOf(ns) + ([End(closing)] + x)), i, props, closing),
            ParseMemberSet(q, b.(rest := EventsOf(ms) + ([End(closing)] + y)), j, props, closing),
            x, b.(rest := y), t', i <= j)
    decreases ns, 0
  {
    hide EventsOf, AllCopied, Copied, CopyOf, ParseElement, ParseEmpty, Holds, RefIdOf, NameOf, Named, Insert;
    var (ms, t1) := AllCopied(ns, t);
    var x', y' := [End(closing)] + x, [End(closing)] + y;
    CopiedFirst(ns, t);
    EventsStep(ns, x');
    EventsStep(ms, y');
    FirstOf(End(closing), x);
    FirstOf(End(closing), y);
    HoldsAt(a, x, t);
    if ns != [] {
      var more, rest := EventsOf(ns[1..]) + x', EventsOf(ms[1..]) + y';
      HoldsAt(a, more, t);
      match ns[0]
      case Leaf(_) => MembersAlike(ns[1..], t, a, b, x, y, q, i, j, props, closing);
      case Closed(tag, attrs) =>
        if tag == "Ref" {
          ClosedReferenceAlike(ns[0], t, a.(rest := more), b, rest, q, i, j);
          if ms[0].Closed? { ClosedReferenceAlike(ns[0], t, a.(rest := more), b.(rest := rest), rest, q, i, j); }
        } else {
          OtherClosedAlike(a.(rest := more), b.(rest := rest), tag, attrs, q, i, j);
        }
        var r := EmptyMember(Unbounded, a.(rest := more), tag, attrs, i, props);
        if r.Ok? {
          MembersAlike(ns[1..], t, a, b, x, y, q, i, j, r.value.value, closing);
        }
      case Element(tag, attrs, kids) =>
        ElementAlike(ns[0], t, a, b, more, rest, q, i, j);
        ElementName(ns[0], t);
        var r := ParseElement(Unbounded, a.(rest := EventsOf(kids) + ([End(tag)] + more)), tag, attrs, i);
        if r.Ok? && NameOrEmpty(attrs).Ok? {
          var grown := if r.value.value.Some? then Insert(props, NameOrEmpty(attrs).value, r.value.value.value) else props;
          MembersAlike(ns[1..], Copied(ns[0], t).1, r.value.dec, b, x, y, q, i, j, grown, closing);
        }
    }
  }

  lemma ElementName(n: Node, t: Table)
    requires n.Element?
    ensures var m := Copied(n, t).0; m.Element? && NameOf(m.attrs) == NameOf(n.attrs)
  {
    hide NameOf, CopiedBody, RefIdOf;
    NameKept(n.attrs);
  }

  lemma {:induction false} EntryAlike(ns: seq<Node>, t: Table, a: Dec, b: Dec, x: seq<Token>, y: seq<Token>, q: Policy,
                                      i: nat, j: nat, e: Entry)
    requires AllTidy(ns) && Holds(a, t)
    ensures var (ms, t') := AllCopied(ns, t);
      Alike(ParseDictEntry(Unbounded, a.(rest := EventsOf(ns) + ([End("En")] + x)), i, e),
            ParseDictEntry(q, b.(rest := EventsOf(ms) + ([End("En")] + y)), j, e),
            x, b.(rest := y), t', i <= j)
    decreases ns, 0
  {
    hide EventsOf, AllCopied, Copied, CopyOf, ParseElement, ParseEmpty, Holds, RefIdOf, NameOf, Named, SetEntry;
    var (ms, t1) := AllCopied(ns, t);
    var x', y' := [End("En")] + x, [End("En")] + y;
    CopiedFirst(ns, t);
    EventsStep(ns, x');
    EventsStep(ms, y');
    FirstOf(End("En"), x);
    FirstOf(End("En"), y);
    HoldsAt(a, x, t);
    if ns != [] {
      var more, rest := EventsOf(ns[1..]) + x', EventsOf(ms[1..]) + y';
      HoldsAt(a, more, t);
      match ns[0]
      case Leaf(_) => EntryAlike(ns[1..], t, a, b, x, y, q, i, j, e);
      case Closed(tag, attrs) =>
        if tag == "Ref" {
          ClosedReferenceAlike(ns[0], t, a.(rest := more), b, rest, q, i, j);
          if ms[0].Closed? { ClosedReferenceAlike(ns[0], t, a.(rest := more), b.(rest := rest), rest, q, i, j); }
        } else {
          OtherClosedAlike(a.(rest := more), b.(rest := rest), tag, attrs, q, i, j);
        }
        var r := EmptyEntry(Unbounded, a.(rest := more), tag, attrs, i, e);
        if r.Ok? {
          EntryAlike(ns[1..], t, a, b, x, y, q, i, j, r.value.value);
        }
      case Element(tag, attrs, kids) =>
        ElementAlike(ns[0], t, a, b, more, rest, q, i, j);
        ElementName(ns[0], t);
        var r := ParseElement(Unbounded, a.(rest := EventsOf(kids) + ([End(tag)] + more)), tag, attrs, i);
        if r.Ok? && NameOrEmpty(attrs).Ok? {
          var filled := if r.value.value.Some? then SetEntry(e, NameOrEmpty(attrs).value, r.value.value.value) else e;
          EntryAlike(ns[1..], Copied(ns[0], t).1, r.value.dec, b, x, y, q, i, j, filled);
        }
    }
  }

  lemma CopiedDictFirst(ns: seq<Node>, t: Table)
    ensures ns == [] ==> CopiedDict(ns, t) == ([], t)
    ensures ns != [] ==>
      var (ms, t'') := CopiedDict(ns, t);
      var (inner, t') := if ns[0].Element? then AllCopied(ns[0].kids, t) else ([], t);
      && ms != [] && ms[0] == (if ns[0].Element? then Element(ns[0].tag, ns[0].attrs, inner) else ns[0])
      && ms[1..] == CopiedDict(ns[1..], t').0 && t'' == CopiedDict(ns[1..], t').1
  {
    hide AllCopied;
  }

  lemma {:induction false} DictAlike(ns: seq<Node>, t: Table, a: Dec, b: Dec, x: seq<Token>, y: seq<Token>, q: Policy,
                                     i: nat, j: nat, entries: seq<Entry>)
    requires TidyDict(ns) && Holds(a, t)
    ensures var (ms, t') := CopiedDict(ns, t);
      Alike(ParseDict(Unbounded, a.(rest := EventsOf(ns) + ([End("DCT")] + x)), i, entries),
            ParseDict(q, b.(rest := EventsOf(ms) + ([End("DCT")] + y)), j, entries),
            x, b.(rest := y), t', i <= j)
    decreases ns, 0
  {
    hide EventsOf, AllCopied, CopiedDict, ParseDictEntry, Holds;
    var (ms, t1) := CopiedDict(ns, t);
    var x', y' := [End("DCT")] + x, [End("DCT")] + y;
    CopiedDictFirst(ns, t);
    EventsStep(ns, x');
    EventsStep(ms, y');
    FirstOf(End("DCT"), x);
    FirstOf(End("DCT"), y);
    HoldsAt(a, x, t);
    if ns != [] {
      var more, rest := EventsOf(ns[1..]) + x', EventsOf(ms[1..]) + y';
      HoldsAt(a, more, t);
      match ns[0]
      case Element(tag, attrs, kids) =>
        EntryAlike(kids, t, a, b, more, rest, q, i, j, Entry(Null, Null));
        var r := ParseDictEntry(Unbounded, a.(rest := EventsOf(kids) + ([End(tag)] + more)), i, Entry(Null, Null));
        if r.Ok? {
          DictAlike(ns[1..], AllCopied(kids, t).1, r.value.dec, b, x, y, q, i, j, entries + [r.value.value]);
        }
      case Closed(_, _) => DictAlike(ns[1..], t, a, b, x, y, q, i, j, entries);
      case Leaf(_) => DictAlike(ns[1..], t, a, b, x, y, q, i, j, entries);
    }
  }

  // ---- Object bodies ----

  /** A type-name list, and the list under its id from then on. */
  lemma TypeNamesAlike(n: Node, t: Table, a: Dec, b: Dec, x: seq<Token>, y: seq<Token>, q: Policy, i: nat, j: nat, c: Child)
    requires n.Element? && n.tag == "TN" && TidyPart(n) && Holds(a, t)
    ensures var (m, t') := CopiedPart(n, t);
      m.Element? && Alike(ParseChild(Unbounded, a.(rest := EventsOf(n.kids) + ([End(n.tag)] + x)), n.tag, n.attrs, i, c),
                          ParseChild(q, b.(rest := EventsOf(m.kids) + ([End(m.tag)] + y)), m.tag, m.attrs, j, c),
                          x, b.(rest := y), t', i <= j)
  {
    hide EventsOf, ParseTypeNames, RefIdOf, Stands, Lists, IsListTag;
    RefIsNoOther();
    NameKept(n.attrs);
    NamesReadAlike(n.kids, x, y, []);
    var r := ParseTypeNames(EventsOf(n.kids) + ([End("TN")] + x), []);
    if r.Ok? && IdIn(n.attrs).Some? {
      forall tail ensures NamesAt(n.kids, r.value.value, tail) {
        NamesReadAlike(n.kids, x, tail, []);
      }
      assert Lists(n.kids, r.value.value) by { ListsEverywhere(n.kids, r.value.value); }
      HoldsList(a, t, IdIn(n.attrs).value, r.value.value, n.kids);
    }
  }

  lemma ListsEverywhere(list: seq<Node>, names: seq<string>)
    requires forall tail: seq<Token> :: NamesAt(list, names, tail)
    ensures Lists(list, names)
  {
  }

  /** Type names by reference. */
  lemma SharedListAlike(n: Node, t: Table, a: Dec, b: Dec, x: seq<Token>, y: seq<Token>, q: Policy, i: nat, j: nat, c: Child)
    requires n.Element? && n.tag == "TNRef" && TidyPart(n) && Holds(a, t)
    ensures var m := ListOf(t, n);
      m.Element? && Alike(ParseChild(Unbounded, a.(rest := EventsOf(n.kids) + ([End(n.tag)] + x)), n.tag, n.attrs, i, c),
                          ParseChild(q, b.(rest := EventsOf(m.kids) + ([End(m.tag)] + y)), m.tag, m.attrs, j, c),
                          x, b.(rest := y), t, i <= j)
  {
    hide EventsOf, ParseTypeNames, RefIdOf, SkipToEnd, Stands, Lists, IsListTag;
    RefIsNoOther();
    NameKept(n.attrs);
    SkipsContent(n.kids, n.tag, x);
    SkipsContent(n.kids, n.tag, y);
    var id := IdIn(n.attrs);
    if id.Some? && id.value in t.lists {
      ListThere(t.lists[id.value], a.typeNames[id.value], y);
    }
  }

  lemma ListThere(list: seq<Node>, names: seq<string>, tail: seq<Token>)
    requires Lists(list, names)
    ensures ParseTypeNames(EventsOf(list) + ([End("TN")] + tail), []) == Ok(Taken(names, tail))
  {
    hide EventsOf, ParseTypeNames;
    assert NamesAt(list, names, tail);
  }

  /** One child element of an object. */
  lemma ChildAlike(n: Node, t: Table, a: Dec, b: Dec, x: seq<Token>, y: seq<Token>, q: Policy, i: nat, j: nat, c: Child)
    requires n.Element? && TidyPart(n) && Holds(a, t)
    ensures var (m, t') := CopiedPart(n, t);
      m.Element? && Alike(ParseChild(Unbounded, a.(rest := EventsOf(n.kids) + ([End(n.tag)] + x)), n.tag, n.attrs, i, c),
                          ParseChild(q, b.(rest := EventsOf(m.kids) + ([End(m.tag)] + y)), m.tag, m.attrs, j, c),
                          x, b.(rest := y), t', i <= j)
    decreases n, 2
  {
    hide EventsOf, ParseMemberSet, ParseList, ParseDict, ParseElement, ParseTypeNames, RefIdOf, SkipToEnd, Holds, IsListTag,
         AllCopied, CopiedDict, Copied, ListOf, Tidy;
    RefIsNoOther();
    if n.tag == "MS" || n.tag == "Props" {
      MembersAlike(n.kids, t, a, b, x, y, q, i, j, c.props, n.tag);
    } else if n.tag == "TN" {
      TypeNamesAlike(n, t, a, b, x, y, q, i, j, c);
    } else if n.tag == "TNRef" {
      SharedListAlike(n, t, a, b, x, y, q, i, j, c);
    } else if IsListTag(n.tag) {
      ListAlike(n.kids, t, a, b, x, y, q, i, j, [], n.tag);
    } else if n.tag == "DCT" {
      DictAlike(n.kids, t, a, b, x, y, q, i, j, []);
    } else {
      ElementAlike(n, t, a, b, x, y, q, i, j);
      CopiedTag(n, t);
    }
  }

  lemma CopiedTag(n: Node, t: Table)
    requires n.Element?
    ensures var m := Copied(n, t).0;
      m.Element? && (m.tag == n.tag || m.tag == "Obj") && !IsListTag("Obj") && |"Obj"| == 3 && |"Props"| == 5
  {
    hide CopiedBody, RefIdOf;
  }

  lemma CopiedBodyFirst(ns: seq<Node>, t: Table)
    ensures ns == [] ==> CopiedBody(ns, t) == ([], t)
    ensures ns != [] ==>
      var (m, t') := CopiedPart(ns[0], t);
      var (ms, t'') := CopiedBody(ns, t);
      && ms != [] && ms[0] == m && ms[1..] == CopiedBody(ns[1..], t').0 && t'' == CopiedBody(ns[1..], t').1
      && (ns[0].Leaf? ==> m == ns[0] && t' == t)
      && (ns[0].Closed? ==> t' == t && m == if ns[0].tag == "TNRef" then ListOf(t, ns[0]) else ns[0])
  {
    hide ListOf, Copied, CopiedDict, AllCopied, IsListTag;
  }

  /** A self-closed `<TNRef>`, for which a list may have been put. */
  lemma ClosedListAlike(n: Node, t: Table, a: Dec, b: Dec, y: seq<Token>, q: Policy, j: nat, c: Child)
    requires n.Closed? && n.tag == "TNRef" && RefIdOf(n.attrs).Ok? && Holds(a, t)
    ensures var m := ListOf(t, n); var names := NamesOf(a, IdIn(n.attrs), c.names);
      && !m.Leaf? && m.attrs == [] && RefIdOf(n.attrs) == Ok(IdIn(n.attrs)) && RefIdOf([]) == Ok(None)
      && (m.Closed? ==> m.tag == "TNRef" && names == c.names)
      && (m.Element? ==>
            ParseChild(q, b.(rest := EventsOf(m.kids) + ([End(m.tag)] + y)), m.tag, [], j, c)
              == Ok(Out(c.(names := names), b.(rest := y))))
  {
    hide EventsOf, ParseTypeNames, RefIdOf, Stands, Lists, IsListTag;
    RefIsNoOther();
    NameKept(n.attrs);
    var id := IdIn(n.attrs);
    if id.Some? && id.value in t.lists {
      ListThere(t.lists[id.value], a.typeNames[id.value], y);
    }
  }

  /** One object body, with what was gathered so far. */
  lemma {:induction false} BodyAlike(ns: seq<Node>, t: Table, a: Dec, b: Dec, x: seq<Token>, y: seq<Token>, q: Policy,
                                     i: nat, j: nat, names: seq<string>, props: seq<Prop>, embedded: Option<Value>)
    requires TidyBody(ns) && Holds(a, t)
    ensures var (ms, t') := CopiedBody(ns, t);
      Alike(ParseObjBody(Unbounded, a.(rest := EventsOf(ns) + ([End("Obj")] + x)), i, names, props, embedded),
            ParseObjBody(q, b.(rest := EventsOf(ms) + ([End("Obj")] + y)), j, names, props, embedded),
            x, b.(rest := y), t', i <= j)
    decreases ns, 0
  {
    hide EventsOf, CopiedBody, CopiedPart, ListOf, ParseChild, Holds, RefIdOf, NamesOf, Finish;
    var (ms, t1) := CopiedBody(ns, t);
    var x', y' := [End("Obj")] + x, [End("Obj")] + y;
    CopiedBodyFirst(ns, t);
    EventsStep(ns, x');
    EventsStep(ms, y');
    FirstOf(End("Obj"), x);
    FirstOf(End("Obj"), y);
    HoldsAt(a, x, t);
    if ns != [] {
      var more, rest := EventsOf(ns[1..]) + x', EventsOf(ms[1..]) + y';
      HoldsAt(a, more, t);
      match ns[0]
      case Leaf(_) => BodyAlike(ns[1..], t, a, b, x, y, q, i, j, names, props, embedded);
      case Closed(tag, attrs) =>
        if tag == "TNRef" {
          HoldsAt(a, EventsOf(ns) + x', t);
          ClosedListAlike(ns[0], t, a.(rest := EventsOf(ns) + x'), b, rest, q, j, Child(names, props, embedded));
          NoList(b.(rest := EventsOf(ms) + y'), names);
          var shared := NamesOf(a.(rest := EventsOf(ns) + x'), IdIn(attrs), names);
          BodyAlike(ns[1..], t, a, b, x, y, q, i, j, shared, props, embedded);
        } else {
          BodyAlike(ns[1..], t, a, b, x, y, q, i, j, names, props, embedded);
        }
      case Element(tag, attrs, kids) =>
        var c := Child(names, props, embedded);
        ChildAlike(ns[0], t, a, b, more, rest, q, i, j, c);
        var r := ParseChild(Unbounded, a.(rest := EventsOf(kids) + ([End(tag)] + more)), tag, attrs, i, c);
        if r.Ok? {
          BodyAlike(ns[1..], CopiedPart(ns[0], t).1, r.value.dec, b, x, y, q, i, j,
                    r.value.value.names, r.value.value.props, r.value.value.embedded);
        }
    }
  }


  lemma NoList(d: Dec, names: seq<string>)
    ensures NamesOf(d, None, names) == names
  {
  }

  // ---- Documents ----

  lemma {:induction false} DocumentAlike(ns: seq<Node>, t: Table, a: Dec, b: Dec, q: Policy, values: seq<Value>)
    requires AllTidy(ns) && Holds(a, t)
    ensures var (ms, t') := AllCopied(ns, t);
      Alike(ParseDocument(Unbounded, a.(rest := EventsOf(ns)), values), ParseDocument(q, b.(rest := EventsOf(ms)), values),
            [], b.(rest := []), t', true)
    decreases ns, 0
  {
    hide EventsOf, AllCopied, Copied, CopyOf, ParseElement, ParseEmpty, Holds, RefIdOf, NameOf, Named;
    var (ms, t1) := AllCopied(ns, t);
    CopiedFirst(ns, t);
    EventsStep(ns, []);
    EventsStep(ms, []);
    NothingAdded(EventsOf(ns));
    NothingAdded(EventsOf(ms));
    HoldsAt(a, [], t);
    if ns != [] {
      var more, rest := EventsOf(ns[1..]), EventsOf(ms[1..]);
      NothingAdded(more);
      NothingAdded(rest);
      HoldsAt(a, more, t);
      match ns[0]
      case Leaf(_) => DocumentAlike(ns[1..], t, a, b, q, values);
      case Closed(tag, attrs) =>
        if tag == "Ref" {
          ClosedReferenceAlike(ns[0], t, a.(rest := more), b, rest, q, 0, 0);
          if ms[0].Closed? { ClosedReferenceAlike(ns[0], t, a.(rest := more), b.(rest := rest), rest, q, 0, 0); }
        } else {
          OtherClosedAlike(a.(rest := more), b.(rest := rest), tag, attrs, q, 0, 0);
        }
        var r := ParseEmpty(Unbounded, a.(rest := more), tag, attrs, 0);
        DocumentAlike(ns[1..], t, a, b, q, values + r.value.value.ToSeq());
      case Element(tag, attrs, kids) =>
        ElementAlike(ns[0], t, a, b, more, rest, q, 0, 0);
        var r := ParseElement(Unbounded, a.(rest := EventsOf(kids) + ([End(tag)] + more)), tag, attrs, 0);
        if r.Ok? {
          DocumentAlike(ns[1..], Copied(ns[0], t).1, r.value.dec, b, q, values + r.value.value.ToSeq());
        }
    }
  }

  /**
   * A document with references reads as the document with copies in their place, and a fault is the same: unless
   * the copies nest too deep, or the decoder refuses a reference for its limits.
   */
  lemma ReferencesAreCopies(ns: seq<Node>, length: nat, again: nat)
    requires AllTidy(ns)
    ensures var shared := ParseClixml(EventsOf(ns), length); var copied := ParseClixml(EventsOf(WithCopies(ns)), again);
      copied == shared || copied == Err(TooDeep) || (shared.Err? && Refused(shared.error))
  {
    hide EventsOf, AllCopied, ParseDocument, ReferencedIds, Stands, Lists;
    ReferenceTableIsSound(EventsOf(ns), length);
    var copies := EventsOf(WithCopies(ns));
    DocumentAlike(ns, Table(map[], map[]), Fresh([]), Fresh([]), Limits(copies, again), []);
    assert Fresh([]).(rest := EventsOf(ns)) == Fresh(EventsOf(ns)) && Fresh([]).(rest := copies) == Fresh(copies);
  }
}
