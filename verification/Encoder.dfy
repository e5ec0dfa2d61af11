/** The CLIXML encoder: the events of a written value, and the writer that appends them. */
module Encoder {
  import opened Common
  import opened Text
  import opened Escapes
  import opened Xml
  import opened Values
  import Base64

  /** `RefIdAllocator::next`: the following id; the last one repeats. */
  function NextId(id: nat): nat {
    if id < U32_MAX then id + 1 else id
  }

  datatype Emitted = Emitted(toks: seq<Token>, next: nat)

  // ---- Scalars ----

  function IntTag(k: IntKind): string {
    match k
    case SB => "SB"
    case By => "By"
    case I16 => "I16"
    case U16 => "U16"
    case I32 => "I32"
    case U32 => "U32"
    case I64 => "I64"
    case U64 => "U64"
  }

  function TextTag(k: TextKind): string {
    match k
    case Str => "S"
    case DateTime => "DT"
    case Duration => "TS"
    case Version => "Version"
    case Uri => "URI"
    case Xml => "XD"
    case ScriptBlock => "SBK"
    case SecureString => "SS"
  }

  predicate Atomic(v: Value) {
    !v.Null? && !v.List? && !v.Dict? && !v.Object?
  }

  function ScalarTag(v: Value): string
    requires Atomic(v)
  {
    match v
    case Bool(_) => "B"
    case Int(k, _) => IntTag(k)
    case Decimal(_) => "D"
    case Char(_) => "C"
    case Textual(k, _) => TextTag(k)
    case Bytes(_) => "BA"
    case GuidValue(_) => "G"
  }

  /** What stands between the tags, escaped. */
  function ScalarBody(v: Value): string
    requires Atomic(v)
  {
    match v
    case Bool(b) => if b then "true" else "false"
    case Int(_, i) => ShowInt(i)
    case Decimal(s) => Escape(s, false)
    case Char(c) => ShowNat(if c as int < 0x1_0000 then c as int else 0xFFFD)
    case Textual(_, s) => Escape(s, false)
    case Bytes(b) => Base64.Encode(b)
    case GuidValue(g) => ShowGuid(g)
  }

  // ---- Elements ----

  /** `write_simple` with a body. */
  function Simple(tag: string, body: string, name: Option<string>): seq<Token> {
    [Start(tag, NameAttr(name))] + (Lex(body) + [End(tag)])
  }

  function OpenObj(name: Option<string>, id: nat): Token {
    Start("Obj", NameAttr(name) + [IdAttr(id)])
  }

  function TypeNameItems(names: seq<string>): seq<Token> {
    if names == [] then [] else Simple("T", Escape(names[0], false), None) + TypeNameItems(names[1..])
  }

  /** The `<TN>` block, if there are type names. */
  function TypeNameBlock(names: seq<string>, id: nat): seq<Token> {
    if names == [] then [] else [Start("TN", [IdAttr(id)])] + (TypeNameItems(names) + [End("TN")])
  }

  function DisplayBlock(display: Option<string>): seq<Token> {
    if display.None? then [] else Simple("ToString", Escape(display.value, false), None)
  }

  /** `write_value_with`. */
  function EncValue(v: Value, name: Option<string>, next: nat): (r: Emitted)
    ensures next <= r.next
    decreases v, 1
  {
    match v
    case Null => Emitted([Empty("Nil", NameAttr(name))], next)
    case List(items) =>
      var e := EncItems(items, NextId(next));
      Emitted([OpenObj(name, next)] + (Wrapped("LST", e.toks) + [End("Obj")]), e.next)
    case Dict(entries) =>
      var e := EncEntries(entries, NextId(next));
      Emitted([OpenObj(name, next)] + (Wrapped("DCT", e.toks) + [End("Obj")]), e.next)
    case Object(names, display, props) =>
      var e := EncObjBody(v, NextId(next));
      Emitted([OpenObj(name, next)] + (e.toks + [End("Obj")]), e.next)
    case _ => Emitted(Simple(ScalarTag(v), ScalarBody(v), name), next)
  }

  function Wrapped(tag: string, toks: seq<Token>): seq<Token> {
    [Start(tag, [])] + (toks + [End(tag)])
  }

  /** `write_object` between the tags: type names, display text, `_value` bare, the other properties. */
  function EncObjBody(v: Value, next: nat): (r: Emitted)
    requires v.Object?
    ensures next <= r.next
    decreases v, 0
  {
    var n := if v.typeNames == [] then next else NextId(next);
    var bare := EncBareValue(v.props, n);
    var others := EncProps(v.props, bare.next);
    Emitted(TypeNameBlock(v.typeNames, next)
            + (DisplayBlock(v.display)
               + (bare.toks
                  + (if Without(v.props, VALUE) == [] then [] else Wrapped("MS", others.toks)))),
            others.next)
  }

  /** `write_container_body`, or the element of anything else. */
  function EncBare(v: Value, next: nat): (r: Emitted)
    ensures next <= r.next
    decreases v, 2
  {
    match v
    case List(items) => var e := EncItems(items, next); Emitted(Wrapped("LST", e.toks), e.next)
    case Dict(entries) => var e := EncEntries(entries, next); Emitted(Wrapped("DCT", e.toks), e.next)
    case _ => EncValue(v, None, next)
  }

  function EncItems(items: seq<Value>, next: nat): (r: Emitted)
    ensures next <= r.next
    decreases items, 0
  {
    if items == [] then Emitted([], next)
    else
      var e := EncValue(items[0], None, next);
      var more := EncItems(items[1..], e.next);
      Emitted(e.toks + more.toks, more.next)
  }

  function EncEntries(entries: seq<Entry>, next: nat): (r: Emitted)
    ensures next <= r.next
    decreases entries, 0
  {
    if entries == [] then Emitted([], next)
    else
      var e := EncEntry(entries[0], next);
      var more := EncEntries(entries[1..], e.next);
      Emitted(e.toks + more.toks, more.next)
  }

  function EncEntry(e: Entry, next: nat): (r: Emitted)
    ensures next <= r.next
    decreases e, 0
  {
    var k := EncValue(e.key, Some("Key"), next);
    var v := EncValue(e.val, Some("Value"), k.next);
    Emitted([Start("En", [])] + (k.toks + (v.toks + [End("En")])), v.next)
  }

  /** The `_value` property, if there is one. */
  function EncBareValue(props: seq<Prop>, next: nat): (r: Emitted)
    ensures next <= r.next
    decreases props, 0
  {
    if props == [] then Emitted([], next)
    else if props[0].name == VALUE then EncBare(props[0].value, next)
    else EncBareValue(props[1..], next)
  }

  /** The properties other than `_value`. */
  function EncProps(props: seq<Prop>, next: nat): (r: Emitted)
    ensures next <= r.next
    decreases props, 0
  {
    if props == [] then Emitted([], next)
    else if props[0].name == VALUE then EncProps(props[1..], next)
    else
      var e := EncValue(props[0].value, Some(props[0].name), next);
      var more := EncProps(props[1..], e.next);
      Emitted(e.toks + more.toks, more.next)
  }

  /** `to_clixml`. */
  function ToClixml(v: Value): seq<Token> {
    EncValue(v, None, 0).toks
  }

  // ---- The writer ----

  /** The output buffer and the id allocator the source threads through its writers. */
  class Writer {
    var out: seq<Token>
    var next: nat

    constructor ()
      ensures out == [] && next == 0
    {
      out := [];
      next := 0;
    }

    method NewId() returns (id: nat)
      modifies `next
      ensures id == old(next) && next == NextId(old(next))
    {
      id := next;
      next := NextId(next);
    }

    method Push(toks: seq<Token>)
      modifies `out
      ensures out == old(out) + toks
    {
      out := out + toks;
    }

    method Open(name: Option<string>)
      modifies this
      ensures out == old(out) + [OpenObj(name, old(next))] && next == NextId(old(next))
    {
      var id := NewId();
      Push([OpenObj(name, id)]);
    }

    method Value(v: Value, name: Option<string>)
      modifies this
      ensures out == old(out) + EncValue(v, name, old(next)).toks
      ensures next == EncValue(v, name, old(next)).next
      decreases v, 1
    {
      hide OpenObj, NameAttr, NextId, ScalarBody, ScalarTag, Simple, EncItems, EncEntries, EncObjBody;
      match v {
        case Null => Push([Empty("Nil", NameAttr(name))]);
        case List(_) => ContainerValue(v, name);
        case Dict(_) => ContainerValue(v, name);
        case Object(_, _, _) =>
          ObjectValue(v, name);
        case _ => Push(Simple(ScalarTag(v), ScalarBody(v), name));
      }
    }

    method ContainerValue(v: Value, name: Option<string>)
      requires v.List? || v.Dict?
      modifies this
      ensures out == old(out) + EncValue(v, name, old(next)).toks
      ensures next == EncValue(v, name, old(next)).next
      decreases v, 0
    {
      hide OpenObj, NameAttr, NextId, ScalarBody, ScalarTag, Simple, EncItems, EncEntries, EncObjBody, Wrapped;
      var id := next;
      Open(name);
      ghost var head := [OpenObj(name, id)];
      ghost var middle;
      match v {
        case List(items) =>
          middle := Wrapped("LST", EncItems(items, next).toks);
          Items(items);
        case Dict(entries) =>
          middle := Wrapped("DCT", EncEntries(entries, next).toks);
          Entries(entries);
      }
      Push([End("Obj")]);
      Regroup(old(out), head, middle);
      Regroup(old(out), head + middle, [End("Obj")]);
      Regroup(head, middle, [End("Obj")]);
    }

    method Items(items: seq<Value>)
      modifies this
      ensures out == old(out) + Wrapped("LST", EncItems(items, old(next)).toks)
      ensures next == EncItems(items, old(next)).next
      decreases items, 0
    {
      hide EncValue, EncItems, Wrapped;
      Push([Start("LST", [])]);
      ghost var all := EncItems(items, next);
      ghost var before := out;
      NoItems(next);
      ghost var done: seq<Token> := [];
      for i := 0 to |items|
        invariant out == before + done
        invariant all.toks == done + EncItems(items[i..], next).toks
        invariant all.next == EncItems(items[i..], next).next
      {
        ghost var n := next;
        ItemsStep(items, i, n);
        Value(items[i], None);
        Regroup(done, EncValue(items[i], None, n).toks, EncItems(items[i + 1..], next).toks);
        Regroup(before, done, EncValue(items[i], None, n).toks);
        done := done + EncValue(items[i], None, n).toks;
      }
      assert items[|items|..] == [];
      NoItems(next);
      assert done == all.toks;
      Push([End("LST")]);
      WrapUp(old(out), "LST", done);
    }

    method Entries(entries: seq<Entry>)
      modifies this
      ensures out == old(out) + Wrapped("DCT", EncEntries(entries, old(next)).toks)
      ensures next == EncEntries(entries, old(next)).next
      decreases entries, 0
    {
      hide EncValue, EncEntry, EncEntries, Wrapped;
      Push([Start("DCT", [])]);
      ghost var all := EncEntries(entries, next);
      ghost var before := out;
      NoItems(next);
      ghost var done: seq<Token> := [];
      for i := 0 to |entries|
        invariant out == before + done
        invariant all.toks == done + EncEntries(entries[i..], next).toks
        invariant all.next == EncEntries(entries[i..], next).next
      {
        ghost var n := next;
        EntriesStep(entries, i, n);
        EntryOf(entries[i]);
        Regroup(done, EncEntry(entries[i], n).toks, EncEntries(entries[i + 1..], next).toks);
        Regroup(before, done, EncEntry(entries[i], n).toks);
        done := done + EncEntry(entries[i], n).toks;
      }
      assert entries[|entries|..] == [];
      NoItems(next);
      assert done == all.toks;
      Push([End("DCT")]);
      WrapUp(old(out), "DCT", done);
    }

    method EntryOf(e: Entry)
      modifies this
      ensures out == old(out) + EncEntry(e, old(next)).toks
      ensures next == EncEntry(e, old(next)).next
      decreases e, 0
    {
      hide EncValue;
      ghost var n := next;
      ghost var k := EncValue(e.key, Some("Key"), n);
      ghost var v := EncValue(e.val, Some("Value"), k.next);
      Push([Start("En", [])]);
      Value(e.key, Some("Key"));
      Value(e.val, Some("Value"));
      Push([End("En")]);
      Regroup(v.toks, [End("En")], []);
      assert (((old(out) + [Start("En", [])]) + k.toks) + v.toks) + [End("En")]
          == old(out) + ([Start("En", [])] + (k.toks + (v.toks + [End("En")])));
    }

    /** `write_object`. */
    method ObjectValue(v: Value, name: Option<string>)
      requires v.Object?
      modifies this
      ensures out == old(out) + EncValue(v, name, old(next)).toks
      ensures next == EncValue(v, name, old(next)).next
      decreases v, 0
    {
      hide OpenObj, NameAttr, NextId, EncObjBody, EncBareValue, EncProps, EncValue, TypeNameBlock, DisplayBlock, Wrapped,
           Without;
      ghost var n := next;
      Open(name);
      ghost var body := next;
      TypeNames(v.typeNames);
      ghost var bareFrom := next;
      Display(v.display);
      BareValue(v.props);
      ghost var propsFrom := next;
      Members(v.props);
      Push([End("Obj")]);
      ObjectPieces(old(out), v, name, n, body, bareFrom, propsFrom);
    }

    method TypeNames(names: seq<string>)
      modifies this
      ensures out == old(out) + TypeNameBlock(names, old(next))
      ensures next == if names == [] then old(next) else NextId(old(next))
    {
      hide TypeNameItems, IdAttr, NextId;
      if names != [] {
        var id := NewId();
        Push([Start("TN", [IdAttr(id)])]);
        ghost var before := out;
        TypeNamesStep([], 0);
        for i := 0 to |names|
          invariant next == NextId(old(next))
          invariant before + TypeNameItems(names) == out + TypeNameItems(names[i..])
        {
          ghost var was := out;
          TypeNamesStep(names, i);
          Push(Simple("T", Escape(names[i], false), None));
          Regroup(was, Simple("T", Escape(names[i], false), None), TypeNameItems(names[i + 1..]));
        }
        assert names[|names|..] == [];
        assert out + [] == out;
        Push([End("TN")]);
        assert ((old(out) + [Start("TN", [IdAttr(id)])]) + TypeNameItems(names)) + [End("TN")]
            == old(out) + ([Start("TN", [IdAttr(id)])] + (TypeNameItems(names) + [End("TN")]));
      } else {
        assert out + [] == out;
      }
    }

    method Display(display: Option<string>)
      modifies `out
      ensures out == old(out) + DisplayBlock(display)
    {
      if display.Some? {
        Push(Simple("ToString", Escape(display.value, false), None));
      } else {
        assert out + [] == out;
      }
    }

    /** The property `_value`, looked up by name. */
    method BareValue(props: seq<Prop>)
      modifies this
      ensures out == old(out) + EncBareValue(props, old(next)).toks
      ensures next == EncBareValue(props, old(next)).next
      decreases props, 0
    {
      hide EncBare, EncBareValue;
      var i := 0;
      while i < |props| && props[i].name != VALUE
        invariant 0 <= i <= |props|
        invariant out == old(out) && next == old(next)
        invariant EncBareValue(props, next) == EncBareValue(props[i..], next)
      {
        BareStep(props, i, next);
        i := i + 1;
      }
      BareStep(props, i, next);
      if i < |props| {
        Bare(props[i].value);
      } else {
        assert out + [] == out;
      }
    }

    method Bare(v: Value)
      modifies this
      ensures out == old(out) + EncBare(v, old(next)).toks
      ensures next == EncBare(v, old(next)).next
      decreases v, 2
    {
      hide EncValue, EncItems, EncEntries, Wrapped;
      match v {
        case List(items) => Items(items);
        case Dict(entries) => Entries(entries);
        case _ => Value(v, None);
      }
    }

    /** The member set, if there is any property but `_value`. */
    method Members(props: seq<Prop>)
      modifies this
      ensures out == old(out) + MemberBlock(props, old(next))
      ensures next == EncProps(props, old(next)).next
      decreases props, 0
    {
      hide EncValue, EncProps, Wrapped, Without;
      ghost var n := next;
      if Without(props, VALUE) == [] {
        assert out + [] == out;
        OnlyValue(props, n);
        return;
      }
      Push([Start("MS", [])]);
      ghost var all := EncProps(props, n);
      ghost var before := out;
      ghost var done: seq<Token> := [];
      for i := 0 to |props|
        invariant out == before + done
        invariant all.toks == done + EncProps(props[i..], next).toks
        invariant all.next == EncProps(props[i..], next).next
      {
        PropsStep(props, i, next);
        if props[i].name != VALUE {
          ghost var at := next;
          ghost var e := EncValue(props[i].value, Some(props[i].name), at).toks;
          Value(props[i].value, Some(props[i].name));
          Regroup(done, e, EncProps(props[i + 1..], next).toks);
          Regroup(before, done, e);
          done := done + e;
        }
      }
      PropsStep(props, |props|, next);
      assert done == all.toks;
      Push([End("MS")]);
      WrapUp(old(out), "MS", done);
    }
  }

  function MemberBlock(props: seq<Prop>, next: nat): seq<Token> {
    if Without(props, VALUE) == [] then [] else Wrapped("MS", EncProps(props, next).toks)
  }

  lemma NoItems(next: nat)
    ensures EncItems([], next) == Emitted([], next) && EncEntries([], next) == Emitted([], next)
  {
  }

  lemma ItemsStep(items: seq<Value>, i: nat, next: nat)
    requires i < |items|
    ensures var e := EncValue(items[i], None, next); var more := EncItems(items[i + 1..], e.next);
      EncItems(items[i..], next) == Emitted(e.toks + more.toks, more.next)
  {
    hide EncValue;
    assert items[i..][1..] == items[i + 1..];
  }

  lemma EntriesStep(entries: seq<Entry>, i: nat, next: nat)
    requires i < |entries|
    ensures var e := EncEntry(entries[i], next); var more := EncEntries(entries[i + 1..], e.next);
      EncEntries(entries[i..], next) == Emitted(e.toks + more.toks, more.next)
  {
    hide EncEntry;
    assert entries[i..][1..] == entries[i + 1..];
  }

  lemma TypeNamesStep(names: seq<string>, i: nat)
    requires i <= |names|
    ensures TypeNameItems([]) == []
    ensures i < |names| ==>
      TypeNameItems(names[i..]) == Simple("T", Escape(names[i], false), None) + TypeNameItems(names[i + 1..])
  {
    hide Simple, Escape;
    if i < |names| {
      assert names[i..][1..] == names[i + 1..];
    }
  }

  lemma BareStep(props: seq<Prop>, i: nat, next: nat)
    requires i <= |props|
    ensures props[0..] == props
    ensures i == |props| ==> EncBareValue(props[i..], next) == Emitted([], next)
    ensures i < |props| && props[i].name == VALUE ==>
      EncBareValue(props[i..], next) == EncBare(props[i].value, next)
    ensures i < |props| && props[i].name != VALUE ==>
      EncBareValue(props[i..], next) == EncBareValue(props[i + 1..], next)
  {
    hide EncBare;
    if i < |props| {
      assert props[i..][1..] == props[i + 1..];
    }
  }

  lemma PropsStep(props: seq<Prop>, i: nat, next: nat)
    requires i <= |props|
    ensures i == |props| ==> EncProps(props[i..], next) == Emitted([], next)
    ensures i < |props| && props[i].name == VALUE ==>
      EncProps(props[i..], next) == EncProps(props[i + 1..], next)
    ensures i < |props| && props[i].name != VALUE ==>
      var e := EncValue(props[i].value, Some(props[i].name), next);
      var more := EncProps(props[i + 1..], e.next);
      EncProps(props[i..], next) == Emitted(e.toks + more.toks, more.next)
  {
    hide EncValue;
    if i < |props| {
      assert props[i..][1..] == props[i + 1..];
    }
  }

  lemma {:induction false} OnlyValue(props: seq<Prop>, next: nat)
    requires Without(props, VALUE) == []
    ensures EncProps(props, next) == Emitted([], next)
  {
    if props != [] {
      assert props[0].name == VALUE;
      OnlyValue(props[1..], next);
    }
  }

  lemma WrapUp(before: seq<Token>, tag: string, done: seq<Token>)
    ensures ((before + [Start(tag, [])]) + done) + [End(tag)] == before + Wrapped(tag, done)
  {
    Regroup(before, [Start(tag, [])], done);
    Regroup(before, [Start(tag, [])] + done, [End(tag)]);
    Regroup([Start(tag, [])], done, [End(tag)]);
  }

  lemma ObjectPieces(out: seq<Token>, v: Value, name: Option<string>, n: nat, body: nat, bareFrom: nat, propsFrom: nat)
    requires v.Object? && body == NextId(n)
    requires bareFrom == if v.typeNames == [] then body else NextId(body)
    requires propsFrom == EncBareValue(v.props, bareFrom).next
    ensures EncValue(v, name, n).next == EncProps(v.props, propsFrom).next
    ensures (((((out + [OpenObj(name, n)]) + TypeNameBlock(v.typeNames, body)) + DisplayBlock(v.display))
              + EncBareValue(v.props, bareFrom).toks) + MemberBlock(v.props, propsFrom)) + [End("Obj")]
         == out + EncValue(v, name, n).toks
  {
    hide OpenObj, NextId, EncBareValue, EncProps, TypeNameBlock, DisplayBlock, Wrapped, Without;
    var a, b, c, d, e := [OpenObj(name, n)], TypeNameBlock(v.typeNames, body), DisplayBlock(v.display),
        EncBareValue(v.props, bareFrom).toks, MemberBlock(v.props, propsFrom);
    SixPieces(out, a, b, c, d, e, [End("Obj")]);
  }

  lemma SixPieces<T>(out: seq<T>, a: seq<T>, b: seq<T>, c: seq<T>, d: seq<T>, e: seq<T>, f: seq<T>)
    ensures (((((out + a) + b) + c) + d) + e) + f == out + (a + ((b + (c + (d + e))) + f))
  {
  }
}
