/** CLIXML values (section 2.2.5 of MS-PSRP): their shape, their size and their normal form. */
module Values {
  import opened Common
  import opened Text

  datatype IntKind = SB | By | I16 | U16 | I32 | U32 | I64 | U64

  datatype TextKind = Str | DateTime | Duration | Version | Uri | Xml | ScriptBlock | SecureString

  datatype Value =
    | Null
    | Bool(b: bool)
    | Int(kind: IntKind, i: int)
    | Decimal(digits: string)
    | Char(c: char)
    | Textual(textKind: TextKind, s: string)
    | Bytes(bytes: seq<byte>)
    | GuidValue(g: Guid)
    | List(items: seq<Value>)
    | Dict(entries: seq<Entry>)
    | Object(typeNames: seq<string>, display: Option<string>, props: seq<Prop>)

  datatype Entry = Entry(key: Value, val: Value)

  datatype Prop = Prop(name: string, value: Value)

  /** A CLIXML decoder, from the text of a document to its values. */
  type Clixml = string -> Option<seq<Value>>

  function Lowest(k: IntKind): int {
    match k
    case SB => -0x80
    case I16 => -0x8000
    case I32 => -0x8000_0000
    case I64 => -0x8000_0000_0000_0000
    case _ => 0
  }

  function Highest(k: IntKind): int {
    match k
    case SB => 0x7F
    case By => 0xFF
    case I16 => 0x7FFF
    case U16 => 0xFFFF
    case I32 => 0x7FFF_FFFF
    case U32 => 0xFFFF_FFFF
    case I64 => 0x7FFF_FFFF_FFFF_FFFF
    case U64 => 0xFFFF_FFFF_FFFF_FFFF
  }

  // ---- Property maps ----

  /** The properties are an insertion-ordered map: no name twice. */
  predicate DistinctNames(props: seq<Prop>) {
    forall i, j :: 0 <= i < j < |props| ==> props[i].name != props[j].name
  }

  function Find(props: seq<Prop>, name: string): (r: Option<Value>)
    ensures r.None? <==> forall i :: 0 <= i < |props| ==> props[i].name != name
  {
    if props == [] then None
    else if props[0].name == name then Some(props[0].value)
    else
      var r := Find(props[1..], name);
      assert r.None? ==> forall i :: 1 <= i < |props| ==> props[i] == props[1..][i - 1];
      r
  }

  lemma {:induction false} FindAt(props: seq<Prop>, i: nat)
    requires i < |props| && DistinctNames(props)
    ensures Find(props, props[i].name) == Some(props[i].value)
  {
    if i > 0 {
      FindAt(props[1..], i - 1);
    }
  }

  /** `IndexMap::insert`: a known name keeps its place. */
  function Insert(props: seq<Prop>, name: string, value: Value): (r: seq<Prop>)
    ensures r != []
  {
    if props == [] then [Prop(name, value)]
    else if props[0].name == name then [Prop(name, value)] + props[1..]
    else [props[0]] + Insert(props[1..], name, value)
  }

  lemma {:induction false} InsertNew(props: seq<Prop>, name: string, value: Value)
    requires forall i :: 0 <= i < |props| ==> props[i].name != name
    ensures Insert(props, name, value) == props + [Prop(name, value)]
  {
    if props != [] {
      InsertNew(props[1..], name, value);
      assert [props[0]] + (props[1..] + [Prop(name, value)]) == props + [Prop(name, value)];
    }
  }

  /** A known name gets the new value and keeps its place, a new one goes last; nothing else changes. */
  lemma {:induction false} InsertFinds(props: seq<Prop>, name: string, value: Value, other: string)
    ensures Find(Insert(props, name, value), other) == if other == name then Some(value) else Find(props, other)
    ensures var r := Insert(props, name, value);
      if Find(props, name).None? then |r| == |props| + 1 && r[..|props|] == props && r[|props|].name == name
      else |r| == |props| && forall i :: 0 <= i < |r| ==> r[i].name == props[i].name
  {
    if props != [] && props[0].name != name {
      InsertFinds(props[1..], name, value, other);
      var r := Insert(props[1..], name, value);
      assert Insert(props, name, value)[1..] == r;
    } else if props == [] {
      assert [Prop(name, value)][1..] == [];
    } else {
      assert Insert(props, name, value)[1..] == props[1..];
    }
  }

  function Without(props: seq<Prop>, name: string): (r: seq<Prop>)
    ensures |r| <= |props|
    ensures forall i :: 0 <= i < |r| ==> r[i].name != name
  {
    if props == [] then []
    else if props[0].name == name then Without(props[1..], name)
    else [props[0]] + Without(props[1..], name)
  }

  lemma {:induction false} WithoutAbsent(props: seq<Prop>, name: string)
    requires forall i :: 0 <= i < |props| ==> props[i].name != name
    ensures Without(props, name) == props
  {
    if props != [] {
      WithoutAbsent(props[1..], name);
    }
  }

  // ---- Well-formed values ----

  /** What the types of the source rule out: integers outside their type, a property named twice. */
  predicate Wf(v: Value) {
    match v
    case Int(k, i) => Lowest(k) <= i <= Highest(k)
    case List(items) => forall i :: 0 <= i < |items| ==> Wf(items[i])
    case Dict(entries) => forall i :: 0 <= i < |entries| ==> Wf(entries[i].key) && Wf(entries[i].val)
    case Object(_, _, props) =>
      DistinctNames(props) && forall i :: 0 <= i < |props| ==> Wf(props[i].value)
    case _ => true
  }

  // ---- Size ----

  function SatAdd(a: nat, b: nat): nat {
    Min(a + b, U64_MAX)
  }

  function SatAdd32(a: nat, b: nat): nat {
    Min(a + b, U32_MAX)
  }

  function Len(s: string): nat {
    |Utf8(s)|
  }

  datatype Size = Size(weight: nat, height: nat)

  /** `measure`: a weight and a height that saturate instead of overflowing. */
  function Measure(v: Value): Size {
    match v
    case Textual(_, s) => Size(SatAdd(Min(Len(s), U64_MAX), 1), 0)
    case Decimal(s) => Size(SatAdd(Min(Len(s), U64_MAX), 1), 0)
    case Bytes(b) => Size(SatAdd(Min(|b|, U64_MAX), 1), 0)
    case List(items) => MeasureItems(items, Size(1, 1))
    case Dict(entries) => MeasureEntries(entries, Size(1, 1))
    case Object(names, display, props) =>
      var own := SatAdd(if display.Some? then Min(Len(display.value), U64_MAX) else 0, 1);
      MeasureProps(props, Size(MeasureNames(names, own), 1))
    case _ => Size(1, 0)
  }

  function MeasureItems(items: seq<Value>, acc: Size): Size {
    if items == [] then acc
    else
      var m := Measure(items[0]);
      MeasureItems(items[1..], Size(SatAdd(acc.weight, m.weight), Max(acc.height, SatAdd32(m.height, 1))))
  }

  function MeasureEntries(entries: seq<Entry>, acc: Size): Size {
    if entries == [] then acc
    else MeasureEntries(entries[1..], MeasureEntry(entries[0], acc))
  }

  function MeasureEntry(e: Entry, acc: Size): Size {
    var k, m := Measure(e.key), Measure(e.val);
    Size(SatAdd(SatAdd(acc.weight, k.weight), m.weight), Max(acc.height, SatAdd32(Max(k.height, m.height), 1)))
  }

  function MeasureNames(names: seq<string>, acc: nat): nat {
    if names == [] then acc
    else MeasureNames(names[1..], SatAdd(SatAdd(acc, Min(Len(names[0]), U64_MAX)), 1))
  }

  function MeasureProps(props: seq<Prop>, acc: Size): Size {
    if props == [] then acc
    else
      var m := Measure(props[0].value);
      MeasureProps(props[1..],
        Size(SatAdd(SatAdd(SatAdd(acc.weight, Min(Len(props[0].name), U64_MAX)), 1), m.weight),
             Max(acc.height, SatAdd32(m.height, 1))))
  }

  /** The nodes of `v`, its texts, bytes and names included. */
  function Weight(v: Value): (w: nat)
    ensures 0 < w
  {
    match v
    case Textual(_, s) => Len(s) + 1
    case Decimal(s) => Len(s) + 1
    case Bytes(b) => |b| + 1
    case List(items) => 1 + ItemsWeight(items)
    case Dict(entries) => 1 + EntriesWeight(entries)
    case Object(names, display, props) =>
      1 + (if display.Some? then Len(display.value) else 0) + NamesWeight(names) + PropsWeight(props)
    case _ => 1
  }

  function ItemsWeight(items: seq<Value>): nat {
    if items == [] then 0 else Weight(items[0]) + ItemsWeight(items[1..])
  }

  function EntriesWeight(entries: seq<Entry>): nat {
    if entries == [] then 0
    else EntryWeight(entries[0]) + EntriesWeight(entries[1..])
  }

  function EntryWeight(e: Entry): nat {
    Weight(e.key) + Weight(e.val)
  }

  function NamesWeight(names: seq<string>): nat {
    if names == [] then 0 else Len(names[0]) + 1 + NamesWeight(names[1..])
  }

  function PropsWeight(props: seq<Prop>): nat {
    if props == [] then 0
    else Len(props[0].name) + 1 + Weight(props[0].value) + PropsWeight(props[1..])
  }

  /** The containers on the longest path down `v`. */
  function Height(v: Value): nat {
    match v
    case List(items) => 1 + ItemsHeight(items)
    case Dict(entries) => 1 + EntriesHeight(entries)
    case Object(_, _, props) => 1 + PropsHeight(props)
    case _ => 0
  }

  function ItemsHeight(items: seq<Value>): nat {
    if items == [] then 0 else Max(Height(items[0]), ItemsHeight(items[1..]))
  }

  function EntriesHeight(entries: seq<Entry>): nat {
    if entries == [] then 0
    else Max(EntryHeight(entries[0]), EntriesHeight(entries[1..]))
  }

  function EntryHeight(e: Entry): nat {
    Max(Height(e.key), Height(e.val))
  }

  function PropsHeight(props: seq<Prop>): nat {
    if props == [] then 0 else Max(Height(props[0].value), PropsHeight(props[1..]))
  }

  function Saturated(weight: nat, height: nat): Size {
    Size(Min(weight, U64_MAX), Min(height, U32_MAX))
  }

  /** What each leaf weighs, and what one more part adds to a container. */
  lemma WeightOfLeaf(v: Value)
    ensures v.Textual? ==> Weight(v) == |Utf8(v.s)| + 1
    ensures v.Decimal? ==> Weight(v) == |Utf8(v.digits)| + 1
    ensures v.Bytes? ==> Weight(v) == |v.bytes| + 1
    ensures v.Null? || v.Bool? || v.Int? || v.Char? || v.GuidValue? ==> Weight(v) == 1
    ensures !v.List? && !v.Dict? && !v.Object? ==> Height(v) == 0
  {
  }

  lemma {:induction false} WeightOfItems(items: seq<Value>, v: Value)
    ensures Weight(List([])) == 1 && Height(List([])) == 1
    ensures Weight(List(items + [v])) == Weight(List(items)) + Weight(v)
    ensures Height(List(items + [v])) == Max(Height(List(items)), 1 + Height(v))
  {
    if items == [] {
      assert items + [v] == [v] && [v][1..] == [];
    } else {
      assert (items + [v])[1..] == items[1..] + [v];
      WeightOfItems(items[1..], v);
    }
  }

  lemma {:induction false} WeightOfEntries(entries: seq<Entry>, e: Entry)
    ensures Weight(Dict([])) == 1 && Height(Dict([])) == 1
    ensures Weight(Dict(entries + [e])) == Weight(Dict(entries)) + Weight(e.key) + Weight(e.val)
    ensures Height(Dict(entries + [e])) == Max(Height(Dict(entries)), 1 + Max(Height(e.key), Height(e.val)))
  {
    if entries == [] {
      assert entries + [e] == [e] && [e][1..] == [];
      assert EntriesWeight([e]) == EntryWeight(e) && EntriesHeight([e]) == EntryHeight(e);
    } else {
      assert (entries + [e])[1..] == entries[1..] + [e];
      WeightOfEntries(entries[1..], e);
    }
  }

  lemma {:induction false} WeightOfProps(props: seq<Prop>, p: Prop)
    ensures PropsWeight(props + [p]) == PropsWeight(props) + |Utf8(p.name)| + 1 + Weight(p.value)
    ensures PropsHeight(props + [p]) == Max(PropsHeight(props), Height(p.value))
  {
    if props == [] {
      assert props + [p] == [p] && [p][1..] == [];
    } else {
      assert (props + [p])[1..] == props[1..] + [p];
      WeightOfProps(props[1..], p);
    }
  }

  lemma {:induction false} WeightOfNames(names: seq<string>, name: string)
    ensures NamesWeight(names + [name]) == NamesWeight(names) + |Utf8(name)| + 1
  {
    if names == [] {
      assert names + [name] == [name] && [name][1..] == [];
    } else {
      assert (names + [name])[1..] == names[1..] + [name];
      WeightOfNames(names[1..], name);
    }
  }

  lemma WeightOfObject(names: seq<string>, display: Option<string>, props: seq<Prop>)
    ensures Weight(Object([], None, [])) == 1 && Height(Object([], None, [])) == 1
    ensures Weight(Object(names, display, props))
         == Weight(Object([], None, props)) + Weight(Object(names, None, [])) - 1
            + (if display.Some? then |Utf8(display.value)| else 0)
    ensures forall p :: Weight(Object([], None, props + [p]))
                        == Weight(Object([], None, props)) + |Utf8(p.name)| + 1 + Weight(p.value)
    ensures forall p :: Height(Object(names, display, props + [p])) == Max(Height(Object(names, display, props)), 1 + Height(p.value))
    ensures forall n :: Weight(Object(names + [n], None, [])) == Weight(Object(names, None, [])) + |Utf8(n)| + 1
  {
    hide Utf8, PropsWeight, NamesWeight, PropsHeight;
    NothingWeighs();
    forall p ensures PropsWeight(props + [p]) == PropsWeight(props) + |Utf8(p.name)| + 1 + Weight(p.value)
             ensures PropsHeight(props + [p]) == Max(PropsHeight(props), Height(p.value))
    {
      WeightOfProps(props, p);
    }
    forall n ensures NamesWeight(names + [n]) == NamesWeight(names) + |Utf8(n)| + 1 {
      WeightOfNames(names, n);
    }
  }

  lemma NothingWeighs()
    ensures PropsWeight([]) == 0 && NamesWeight([]) == 0 && PropsHeight([]) == 0
  {
  }

  /** The saturating folds compute the true size, cut at the width of the machine integers. */
  lemma {:induction false} MeasureSaturates(v: Value)
    ensures Measure(v) == Saturated(Weight(v), Height(v))
  {
    hide MeasureItems, MeasureEntries, MeasureNames, MeasureProps, ItemsWeight, EntriesWeight, NamesWeight, PropsWeight,
         ItemsHeight, EntriesHeight, PropsHeight, Utf8;
    match v
    case List(items) => MeasureItemsSaturates(items, 1, 1);
    case Dict(entries) => MeasureEntriesSaturates(entries, 1, 1);
    case Object(names, display, props) =>
      var own := 1 + if display.Some? then Len(display.value) else 0;
      MeasureNamesSaturates(names, own);
      MeasurePropsSaturates(props, own + NamesWeight(names), 1);
    case _ =>
  }

  lemma {:induction false} MeasureItemsSaturates(items: seq<Value>, w: nat, h: nat)
    requires 0 < h
    ensures MeasureItems(items, Saturated(w, h))
         == Saturated(w + ItemsWeight(items), Max(h, 1 + ItemsHeight(items)))
  {
    if items != [] {
      MeasureSaturates(items[0]);
      MeasureItemsSaturates(items[1..], w + Weight(items[0]), Max(h, 1 + Height(items[0])));
    }
  }

  lemma {:induction false} MeasureEntriesSaturates(entries: seq<Entry>, w: nat, h: nat)
    requires 0 < h
    ensures MeasureEntries(entries, Saturated(w, h))
         == Saturated(w + EntriesWeight(entries), Max(h, 1 + EntriesHeight(entries)))
  {
    if entries != [] {
      var e := entries[0];
      MeasureEntrySaturates(e, w, h);
      MeasureEntriesSaturates(entries[1..], w + EntryWeight(e), Max(h, 1 + EntryHeight(e)));
    }
  }

  lemma MeasureEntrySaturates(e: Entry, w: nat, h: nat)
    requires 0 < h
    ensures MeasureEntry(e, Saturated(w, h)) == Saturated(w + EntryWeight(e), Max(h, 1 + EntryHeight(e)))
  {
    MeasureSaturates(e.key);
    MeasureSaturates(e.val);
  }

  lemma {:induction false} MeasureNamesSaturates(names: seq<string>, w: nat)
    ensures MeasureNames(names, Min(w, U64_MAX)) == Min(w + NamesWeight(names), U64_MAX)
  {
    if names != [] {
      MeasureNamesSaturates(names[1..], w + Len(names[0]) + 1);
    }
  }

  lemma {:induction false} MeasurePropsSaturates(props: seq<Prop>, w: nat, h: nat)
    requires 0 < h
    ensures MeasureProps(props, Saturated(w, h))
         == Saturated(w + PropsWeight(props), Max(h, 1 + PropsHeight(props)))
  {
    hide Measure, Weight, Height, Utf8;
    if props != [] {
      var p := props[0];
      MeasureSaturates(p.value);
      MeasurePropsSaturates(props[1..], w + Len(p.name) + 1 + Weight(p.value), Max(h, 1 + Height(p.value)));
    }
  }

  // ---- Normal form ----

  const VALUE := "_value"

  /** What comes back when `v` is encoded and decoded. */
  function Norm(v: Value): Value
    decreases v, 1
  {
    match v
    case Decimal(s) => Decimal(Trim(s))
    case Char(c) => Char(if c as int < 0x1_0000 then c else '\U{FFFD}')
    case List(items) => Object([], None, [Prop(VALUE, List(NormItems(items)))])
    case Dict(entries) => Object([], None, [Prop(VALUE, Dict(NormEntries(entries)))])
    case Object(names, _, props) =>
      var others := NormProps(props);
      Object(names, None, if others != [] then others else NormValue(props))
    case _ => v
  }

  /** A container as the body of an object, anything else as an element. */
  function NormBare(v: Value): Value
    decreases v, 2
  {
    match v
    case List(items) => List(NormItems(items))
    case Dict(entries) => Dict(NormEntries(entries))
    case _ => Norm(v)
  }

  function NormItems(items: seq<Value>): (r: seq<Value>)
    ensures |r| == |items|
    decreases items, 0
  {
    if items == [] then [] else [Norm(items[0])] + NormItems(items[1..])
  }

  function NormEntries(entries: seq<Entry>): (r: seq<Entry>)
    ensures |r| == |entries|
    decreases entries, 0
  {
    if entries == [] then []
    else [NormEntry(entries[0])] + NormEntries(entries[1..])
  }

  function NormEntry(e: Entry): Entry
    decreases e, 0
  {
    Entry(Norm(e.key), Norm(e.val))
  }

  /** The properties of the member set: all but `_value`. */
  function NormProps(props: seq<Prop>): (r: seq<Prop>)
    decreases props, 0
  {
    if props == [] then []
    else if props[0].name == VALUE then NormProps(props[1..])
    else [Prop(props[0].name, Norm(props[0].value))] + NormProps(props[1..])
  }

  /** The first `_value`, which survives only on its own and only if it is not `Null`. */
  function NormValue(props: seq<Prop>): seq<Prop>
    decreases props, 0
  {
    if props == [] then []
    else if props[0].name != VALUE then NormValue(props[1..])
    else if props[0].value.Null? then []
    else [Prop(VALUE, NormBare(props[0].value))]
  }

  lemma NormWrapped(v: Value)
    requires !v.Null?
    ensures NormProps([Prop(VALUE, v)]) == [] && NormValue([Prop(VALUE, v)]) == [Prop(VALUE, NormBare(v))]
  {
    assert [Prop(VALUE, v)][1..] == [];
  }

  /** One hop settles a value: encoding and decoding again changes nothing. */
  lemma {:induction false} NormIdempotent(v: Value)
    ensures Norm(Norm(v)) == Norm(v)
    decreases v, 1
  {
    match v
    case Decimal(s) => TrimIdempotent(s);
    case List(items) =>
      NormItemsIdempotent(items);
      NormWrapped(List(NormItems(items)));
    case Dict(entries) =>
      NormEntriesIdempotent(entries);
      NormWrapped(Dict(NormEntries(entries)));
    case Object(_, _, props) =>
      NormPropsIdempotent(props);
      if NormProps(props) == [] {
        NormValueIdempotent(props);
      }
    case _ =>
  }

  lemma NormBareIdempotent(v: Value)
    ensures NormBare(NormBare(v)) == NormBare(v)
    decreases v, 2
  {
    match v
    case List(items) => NormItemsIdempotent(items);
    case Dict(entries) => NormEntriesIdempotent(entries);
    case _ => NormIdempotent(v);
  }

  lemma {:induction false} NormItemsIdempotent(items: seq<Value>)
    ensures NormItems(NormItems(items)) == NormItems(items)
    decreases items, 0
  {
    if items != [] {
      NormIdempotent(items[0]);
      NormItemsIdempotent(items[1..]);
      assert NormItems(items)[1..] == NormItems(items[1..]);
    }
  }

  lemma {:induction false} NormEntriesIdempotent(entries: seq<Entry>)
    ensures NormEntries(NormEntries(entries)) == NormEntries(entries)
    decreases entries, 0
  {
    if entries != [] {
      NormEntryIdempotent(entries[0]);
      NormEntriesIdempotent(entries[1..]);
      assert NormEntries(entries)[1..] == NormEntries(entries[1..]);
    }
  }

  lemma NormEntryIdempotent(e: Entry)
    ensures NormEntry(NormEntry(e)) == NormEntry(e)
    decreases e, 0
  {
    NormIdempotent(e.key);
    NormIdempotent(e.val);
  }

  lemma {:induction false} NormPropsIdempotent(props: seq<Prop>)
    ensures NormProps(NormProps(props)) == NormProps(props)
    decreases props, 0
  {
    if props != [] {
      NormPropsIdempotent(props[1..]);
      if props[0].name != VALUE {
        NormIdempotent(props[0].value);
        assert NormProps(props)[1..] == NormProps(props[1..]);
      }
    }
  }

  lemma {:induction false} NormValueIdempotent(props: seq<Prop>)
    ensures NormProps(NormValue(props)) == [] && NormValue(NormValue(props)) == NormValue(props)
    decreases props, 0
  {
    if props != [] {
      if props[0].name != VALUE {
        NormValueIdempotent(props[1..]);
      } else if !props[0].value.Null? {
        NormBareIdempotent(props[0].value);
        assert NormBare(props[0].value) != Null;
      }
    }
  }

  // ---- The documented normal form ----

  /**
   * `normalize` of the fuzzing crate: what the codec is documented to do to a value, which is to put every
   * list and dictionary under the `_value` of an object of its own, one already under a `_value` included.
   * It never keeps the display text, which it leaves out of account.
   */
  function Wrap(v: Value): Value
    decreases v, 1
  {
    match v
    case List(items) => Object([], None, [Prop(VALUE, List(WrapItems(items)))])
    case Dict(entries) => Object([], None, [Prop(VALUE, Dict(WrapEntries(entries)))])
    case Object(names, _, props) => Object(names, None, WrapProps(props))
    case _ => v
  }

  function WrapItems(items: seq<Value>): (r: seq<Value>)
    ensures |r| == |items|
    decreases items, 0
  {
    if items == [] then [] else [Wrap(items[0])] + WrapItems(items[1..])
  }

  function WrapEntries(entries: seq<Entry>): (r: seq<Entry>)
    ensures |r| == |entries|
    decreases entries, 0
  {
    if entries == [] then [] else [WrapEntry(entries[0])] + WrapEntries(entries[1..])
  }

  function WrapEntry(e: Entry): Entry
    decreases e, 0
  {
    Entry(Wrap(e.key), Wrap(e.val))
  }

  function WrapProps(props: seq<Prop>): (r: seq<Prop>)
    ensures |r| == |props|
    decreases props, 0
  {
    if props == [] then [] else [Prop(props[0].name, Wrap(props[0].value))] + WrapProps(props[1..])
  }

  /** The values for which wrapping is all that the codec does. */
  predicate WrapsOnly(v: Value)
    decreases v, 1
  {
    match v
    case Decimal(s) => s == "" || (!IsWhitespace(s[0]) && !IsWhitespace(s[|s| - 1]))
    case Char(c) => c as int < 0x1_0000
    case List(items) => ItemsWrapOnly(items)
    case Dict(entries) => EntriesWrapOnly(entries)
    case Object(_, _, props) => PropsWrapOnly(props) && (Unreserved(props) || SoleValue(props))
    case _ => true
  }

  predicate ItemsWrapOnly(items: seq<Value>)
    decreases items, 0
  {
    items == [] || (WrapsOnly(items[0]) && ItemsWrapOnly(items[1..]))
  }

  predicate EntriesWrapOnly(entries: seq<Entry>)
    decreases entries, 0
  {
    entries == [] || (EntryWrapsOnly(entries[0]) && EntriesWrapOnly(entries[1..]))
  }

  predicate EntryWrapsOnly(e: Entry)
    decreases e, 0
  {
    WrapsOnly(e.key) && WrapsOnly(e.val)
  }

  predicate PropsWrapOnly(props: seq<Prop>)
    decreases props, 0
  {
    props == [] || (WrapsOnly(props[0].value) && PropsWrapOnly(props[1..]))
  }

  /** No property is called `_value`. */
  predicate Unreserved(props: seq<Prop>) {
    forall i :: 0 <= i < |props| ==> props[i].name != VALUE
  }

  /** A `_value` on its own, neither `Null` nor a container. */
  predicate SoleValue(props: seq<Prop>) {
    |props| == 1 && props[0].name == VALUE
    && !props[0].value.Null? && !props[0].value.List? && !props[0].value.Dict?
  }

  lemma TrimmedAlready(s: string)
    ensures Trim(s) == s <==> s == "" || (!IsWhitespace(s[0]) && !IsWhitespace(s[|s| - 1]))
  {
    hide IsWhitespace;
    if s != "" && !IsWhitespace(s[0]) && !IsWhitespace(s[|s| - 1]) {
      TrimIdentity(s);
    }
  }

  lemma SameParts<T>(a: seq<T>, b: seq<T>)
    requires a != [] && b != []
    ensures a == b <==> a[0] == b[0] && a[1..] == b[1..]
  {
    assert a == [a[0]] + a[1..] && b == [b[0]] + b[1..];
  }

  /** The code's normal form is the documented one exactly on those values. */
  lemma {:induction false} NormIsWrap(v: Value)
    ensures Norm(v) == Wrap(v) <==> WrapsOnly(v)
    decreases v, 1
  {
    hide Trim, IsWhitespace;
    match v
    case Decimal(s) => TrimmedAlready(s);
    case List(items) => NormItemsIsWrap(items);
    case Dict(entries) => NormEntriesIsWrap(entries);
    case Object(_, _, props) => NormMembersIsWrap(props);
    case _ =>
  }

  lemma {:induction false} NormItemsIsWrap(items: seq<Value>)
    ensures NormItems(items) == WrapItems(items) <==> ItemsWrapOnly(items)
    decreases items, 0
  {
    hide Norm, Wrap, WrapsOnly;
    if items != [] {
      NormIsWrap(items[0]);
      NormItemsIsWrap(items[1..]);
      SameParts(NormItems(items), WrapItems(items));
      assert NormItems(items)[1..] == NormItems(items[1..]) && WrapItems(items)[1..] == WrapItems(items[1..]);
    }
  }

  lemma {:induction false} NormEntriesIsWrap(entries: seq<Entry>)
    ensures NormEntries(entries) == WrapEntries(entries) <==> EntriesWrapOnly(entries)
    decreases entries, 0
  {
    hide Norm, Wrap, WrapsOnly;
    if entries != [] {
      NormEntryIsWrap(entries[0]);
      NormEntriesIsWrap(entries[1..]);
      SameParts(NormEntries(entries), WrapEntries(entries));
      assert NormEntries(entries)[1..] == NormEntries(entries[1..]);
      assert WrapEntries(entries)[1..] == WrapEntries(entries[1..]);
    }
  }

  lemma NormEntryIsWrap(e: Entry)
    ensures NormEntry(e) == WrapEntry(e) <==> EntryWrapsOnly(e)
    decreases e, 0
  {
    hide Norm, Wrap, WrapsOnly;
    NormIsWrap(e.key);
    NormIsWrap(e.val);
  }

  /** The properties of an object, `_value` among them or not. */
  lemma NormMembersIsWrap(props: seq<Prop>)
    ensures var others := NormProps(props);
      (if others != [] then others else NormValue(props)) == WrapProps(props)
      <==> PropsWrapOnly(props) && (Unreserved(props) || SoleValue(props))
    decreases props, 1
  {
    hide Norm, Wrap, WrapsOnly, NormProps, NormValue, NormBare;
    NormPropsLength(props);
    if Unreserved(props) {
      NormPropsIsWrap(props);
      if props == [] {
        NormNothing();
      }
    } else if NormProps(props) == [] {
      NormReserved(props);
      NormBareIsWrap(props[0].value);
      if |props| == 1 {
        assert props[1..] == [];
      }
    }
  }

  lemma NormNothing()
    ensures NormValue([]) == []
  {
  }

  /** Of properties all called `_value` the first one counts. */
  lemma NormReserved(props: seq<Prop>)
    requires NormProps(props) == [] && props != []
    ensures props[0].name == VALUE
    ensures NormValue(props) == if props[0].value.Null? then [] else [Prop(VALUE, NormBare(props[0].value))]
  {
    hide Norm, NormBare;
  }

  lemma NormBareIsWrap(v: Value)
    ensures NormBare(v) == Wrap(v) <==> !v.List? && !v.Dict? && WrapsOnly(v)
    decreases v, 2
  {
    hide Norm, WrapsOnly;
    NormIsWrap(v);
  }

  lemma {:induction false} NormPropsLength(props: seq<Prop>)
    ensures |NormProps(props)| <= |props| && (|NormProps(props)| == |props| <==> Unreserved(props))
  {
    hide Norm;
    if props != [] {
      NormPropsLength(props[1..]);
      assert forall i :: 1 <= i < |props| ==> props[i] == props[1..][i - 1];
      assert forall i :: 0 <= i < |props[1..]| ==> props[1..][i] == props[i + 1];
    }
  }

  lemma {:induction false} NormPropsIsWrap(props: seq<Prop>)
    requires Unreserved(props)
    ensures NormProps(props) == WrapProps(props) <==> PropsWrapOnly(props)
    decreases props, 0
  {
    hide Norm, Wrap, WrapsOnly;
    if props != [] {
      NormIsWrap(props[0].value);
      NormPropsIsWrap(props[1..]);
      SameParts(NormProps(props), WrapProps(props));
      assert NormProps(props)[1..] == NormProps(props[1..]) && WrapProps(props)[1..] == WrapProps(props[1..]);
    }
  }

  /** Two values on which the codec does more than wrap: a number is trimmed, and a `_value` is lost. */
  lemma NotOnlyWrapped()
    ensures !WrapsOnly(Decimal(" 1")) && Norm(Decimal(" 1")) == Decimal("1") && Wrap(Decimal(" 1")) == Decimal(" 1")
    ensures var v := Object([], None, [Prop(VALUE, Bool(true)), Prop("a", Null)]);
      !WrapsOnly(v) && Norm(v) == Object([], None, [Prop("a", Null)]) && Wrap(v) == v
  {
    assert TrimEnd("1") == "1";
    assert TrimStart(" 1") == "1" by {
      assert " 1"[1..] == "1" && TrimStart("1") == "1";
    }
    var a := Prop("a", Null);
    var props := [Prop(VALUE, Bool(true)), a];
    assert |VALUE| == 6 && |a.name| == 1;
    assert props[1..] == [a] && [a][1..] == [];
    assert NormProps([a]) == [a] && WrapProps([a]) == [a];
    assert props == [props[0]] + [a];
    assert NormProps(props) == [a] && WrapProps(props) == props;
  }
}
