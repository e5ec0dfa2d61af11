/** An object written once and referenced: exactly when the reference gives it back. */
module SharedObjects {
  import opened Common
  import opened Text
  import opened Escapes
  import opened Xml
  import opened Values
  import opened Encoder
  import opened Decoder
  import opened RoundTrip
  import opened RefIds
  import opened Bounds

  // ---- The pre-scan ----

  lemma {:induction false} ReferencesAfter(a: seq<Token>, b: seq<Token>)
    requires Clean(a)
    ensures ReferencedIds(a + b) == ReferencedIds(b)
  {
    hide RefIdOf;
    if a == [] {
      assert a + b == b;
    } else {
      assert (a + b)[0] == a[0] && (a + b)[1..] == a[1..] + b;
      ReferencesAfter(a[1..], b);
    }
  }

  /** The two forms of a reference: self-closed, and with an end tag. */
  predicate IsReference(form: seq<Token>, attrs: seq<Attr>) {
    form == [Empty("Ref", attrs)] || form == [Start("Ref", attrs), End("Ref")]
  }

  lemma ReferencesOf(form: seq<Token>, n: nat)
    requires IsReference(form, [IdAttr(n)])
    ensures ReferencedIds(form) == {ShowNat(n)}
  {
    hide RefIdOf, ShowNat;
    ReadId(n, None);
    assert IdsOf(form[0]) == {ShowNat(n)};
    assert ReferencedIds(form[1..]) == {} by {
      if |form| == 2 {
        assert form[1..] == [End("Ref")] && [End("Ref")][1..] == [];
        assert IdsOf(End("Ref")) == {};
      }
    }
  }

  // ---- A reference wherever values stand ----

  /** A decoder that keeps its accounts, where `n` names the finished object `w`. */
  predicate Ready(p: Policy, d: Dec, n: nat, w: Value) {
    Accounted(p, d) && ShowNat(n) in d.refs && d.refs[ShowNat(n)] == w
  }

  /** One more copy of `w` under `depth` elements: granted if it stays within the nesting limit and the budget. */
  function Granted(p: Policy, d: Dec, w: Value, depth: nat): Result<Dec, Fault>
    requires p.Bounded?
  {
    if depth + 1 + Height(w) > MAX_NESTING_DEPTH then Err(RefTooDeep)
    else if d.expanded + Weight(w) > p.budget then Err(RefBudgetSpent)
    else Ok(d.(expanded := d.expanded + Weight(w), copies := d.copies + [w]))
  }

  lemma ResolveGrants(p: Policy, d: Dec, n: nat, w: Value, attrs: seq<Attr>, depth: nat, level: nat)
    requires Ready(p, d, n, w) && RefIdOf(attrs) == Ok(Some(ShowNat(n))) && level <= 1 <= depth + level
    ensures p.Bounded?
    ensures var g := Granted(p, d, w, depth + level - 1);
      ResolveRef(p, d, attrs, depth, level) == if g.Ok? then Ok(Out(w, g.value)) else Err(g.error)
  {
    hide Weight, Height, Measure, RefIdOf, ShowNat, CopiesWeight;
    MeasureSaturates(w);
  }

  lemma FormStep(form: seq<Token>, attrs: seq<Attr>, tail: seq<Token>)
    requires IsReference(form, attrs)
    ensures form + tail != [] && (form + tail)[0] == form[0]
    ensures form[0].Empty? ==> (form + tail)[1..] == tail
    ensures form[0].Start? ==> (form + tail)[1..] == [End("Ref")] + tail && ([End("Ref")] + tail)[1..] == tail
  {
  }

  /** The element form: its end tag is skipped. */
  lemma OpenReference(p: Policy, d: Dec, n: nat, w: Value, attrs: seq<Attr>, tail: seq<Token>, depth: nat)
    requires Ready(p, d, n, w) && RefIdOf(attrs) == Ok(Some(ShowNat(n))) && depth < MAX_NESTING_DEPTH
    ensures p.Bounded?
    ensures var g := Granted(p, d.(rest := tail), w, depth);
      ParseElement(p, d.(rest := [End("Ref")] + tail), "Ref", attrs, depth)
        == if g.Ok? then Ok(Out(Some(w), g.value)) else Err(g.error)
  {
    hide Weight, Height, RefIdOf, ShowNat, ResolveRef, IsScalarTag, CopiesWeight;
    assert ([End("Ref")] + tail)[1..] == tail;
    ResolveGrants(p, d.(rest := [End("Ref")] + tail), n, w, attrs, depth + 1, 0);
    assert SkipToEnd([End("Ref")] + tail, 1) == Ok(tail);
  }

  /** As an item of a list. */
  lemma ItemReference(p: Policy, d: Dec, n: nat, w: Value, form: seq<Token>, tail: seq<Token>, depth: nat,
                      items: seq<Value>, closing: string)
    requires Ready(p, d, n, w) && IsReference(form, [IdAttr(n)]) && depth < MAX_NESTING_DEPTH
    ensures p.Bounded?
    ensures var g := Granted(p, d.(rest := tail), w, depth);
      ParseList(p, d.(rest := form + tail), depth, items, closing)
        == if g.Ok? then ParseList(p, g.value, depth, items + [w], closing) else Err(g.error)
  {
    hide Granted, RefIdOf, ShowNat, ResolveRef, ParseElement, CopiesWeight, IdAttr;
    ReadId(n, None);
    FormStep(form, [IdAttr(n)], tail);
    OpenReference(p, d, n, w, [IdAttr(n)], tail, depth);
    ResolveGrants(p, d.(rest := tail), n, w, [IdAttr(n)], depth, 1);
  }

  /** As a member, under the name it carries. */
  lemma MemberReference(p: Policy, d: Dec, n: nat, w: Value, form: seq<Token>, tail: seq<Token>, depth: nat,
                        name: string, props: seq<Prop>, closing: string)
    requires Ready(p, d, n, w) && IsReference(form, NameAttr(Some(name)) + [IdAttr(n)]) && depth < MAX_NESTING_DEPTH
    ensures p.Bounded?
    ensures var g := Granted(p, d.(rest := tail), w, depth);
      ParseMemberSet(p, d.(rest := form + tail), depth, props, closing)
        == if g.Ok? then ParseMemberSet(p, g.value, depth, Insert(props, name, w), closing) else Err(g.error)
  {
    hide Granted, RefIdOf, NameOf, ShowNat, ResolveRef, ParseElement, CopiesWeight, IdAttr, NameAttr, Insert;
    var attrs := NameAttr(Some(name)) + [IdAttr(n)];
    ReadId(n, Some(name));
    IdIsNoName(Some(name), n);
    FormStep(form, attrs, tail);
    OpenReference(p, d, n, w, attrs, tail, depth);
    ResolveGrants(p, d.(rest := tail), n, w, attrs, depth, 1);
  }

  /** As the key or the value of an entry. */
  lemma HalfReference(p: Policy, d: Dec, n: nat, w: Value, form: seq<Token>, tail: seq<Token>, depth: nat,
                      name: string, e: Entry)
    requires Ready(p, d, n, w) && IsReference(form, NameAttr(Some(name)) + [IdAttr(n)]) && depth < MAX_NESTING_DEPTH
    requires name == "Key" || name == "Value"
    ensures p.Bounded?
    ensures var g := Granted(p, d.(rest := tail), w, depth);
      ParseDictEntry(p, d.(rest := form + tail), depth, e)
        == if g.Err? then Err(g.error)
           else ParseDictEntry(p, g.value, depth, if name == "Key" then Entry(w, e.val) else Entry(e.key, w))
  {
    hide Granted, RefIdOf, NameOf, ShowNat, ResolveRef, ParseElement, CopiesWeight, IdAttr, NameAttr;
    var attrs := NameAttr(Some(name)) + [IdAttr(n)];
    assert |"Key"| != |"Value"|;
    ReadId(n, Some(name));
    IdIsNoName(Some(name), n);
    FormStep(form, attrs, tail);
    OpenReference(p, d, n, w, attrs, tail, depth);
    ResolveGrants(p, d.(rest := tail), n, w, attrs, depth, 1);
  }

  /** At the top of a document. */
  lemma TopReference(p: Policy, d: Dec, n: nat, w: Value, form: seq<Token>, tail: seq<Token>, values: seq<Value>)
    requires Ready(p, d, n, w) && IsReference(form, [IdAttr(n)])
    ensures p.Bounded?
    ensures var g := Granted(p, d.(rest := tail), w, 0);
      ParseDocument(p, d.(rest := form + tail), values)
        == if g.Ok? then ParseDocument(p, g.value, values + [w]) else Err(g.error)
  {
    hide Granted, RefIdOf, ShowNat, ResolveRef, ParseElement, CopiesWeight, IdAttr;
    ReadId(n, None);
    FormStep(form, [IdAttr(n)], tail);
    OpenReference(p, d, n, w, [IdAttr(n)], tail, 0);
    ResolveGrants(p, d.(rest := tail), n, w, [IdAttr(n)], 0, 1);
  }

  // ---- Written once, read twice ----

  predicate Container(v: Value) {
    v.List? || v.Dict? || v.Object?
  }

  /** A referenced object is read and kept, if its copy in the table can be paid for. */
  lemma ReadKept(p: Policy, d: Dec, v: Value, n: nat, tail: seq<Token>)
    requires Wf(v) && Container(v) && Unkept(p, NextId(n)) && Accounted(p, d) && ShowNat(n) in p.referenced
    ensures var toks := EncValue(v, None, n).toks; var w := Norm(v);
      var r := ParseElement(p, d.(rest := toks[1..] + tail), "Obj", [IdAttr(n)], 0);
      && toks != [] && toks[0] == Start("Obj", [IdAttr(n)])
      && (if Nesting(v) > MAX_NESTING_DEPTH then r == Err(TooDeep)
          else if d.expanded + Weight(w) > p.budget then r == Err(RefBudgetSpent)
          else
            r.Ok? && r.value.value == Some(w) && Ready(p, r.value.dec, n, w) && r.value.dec.rest == tail
            && r.value.dec.expanded == d.expanded + Weight(w))
  {
    hide EncObjBody, EncBare, ParseObjBody, RefIdOf, Keeps, IdAttr, BareNesting, Weight, Charge, ShowNat, CopiesWeight,
         Norm, Wf, Nesting;
    ReadId(n, None);
    assert NameAttr(None) + [IdAttr(n)] == [IdAttr(n)];
    var body := ObjTail(v, None, n);
    var at := d.(rest := EncValue(v, None, n).toks[1..] + tail);
    NestingOfContainer(v);
    if v.Object? {
      ReadObjBody(p, d, v, NextId(n), tail, 1);
    } else {
      ReadWrapped(p, d, v, NextId(n), tail, 1);
      Regroup(EncBare(v, NextId(n)).toks, [End("Obj")], tail);
    }
    var r := ParseObjBody(p, at, 1, [], [], None);
    if r.Ok? {
      ChargeAccounts(p, r.value.dec, Norm(v));
      ChargePays(p, r.value.dec, Norm(v));
    }
  }

  lemma NestingOfContainer(v: Value)
    requires Container(v)
    ensures Nesting(v) >= 1 && (!v.Object? ==> Nesting(v) == 1 + BareNesting(v))
  {
  }

  lemma ChargePays(p: Policy, d: Dec, w: Value)
    requires Accounted(p, d)
    ensures Charge(p.budget, d, w) == if d.expanded + Weight(w) > p.budget then Err(RefBudgetSpent)
              else Ok(d.(expanded := d.expanded + Weight(w), copies := d.copies + [w]))
  {
    hide Weight, Height, Measure, CopiesWeight;
    MeasureSaturates(w);
  }

  /**
   * An object and a reference to it decode to the object twice, exactly when the object nests within the limit, its
   * copy does, and both the copy in the table and the one handed out fit in the budget.
   */
  lemma WrittenOnceReadTwice(v: Value, n: nat, form: seq<Token>, length: nat)
    requires Wf(v) && Container(v) && n < U32_MAX && IsReference(form, [IdAttr(n)])
    ensures var w := Norm(v);
      ParseClixml(EncValue(v, None, n).toks + form, length)
        == if Nesting(v) > MAX_NESTING_DEPTH then Err(TooDeep)
           else if Weight(w) > RefBudget(length) then Err(RefBudgetSpent)
           else if 1 + Height(w) > MAX_NESTING_DEPTH then Err(RefTooDeep)
           else if 2 * Weight(w) > RefBudget(length) then Err(RefBudgetSpent)
           else Ok([w, w])
  {
    hide EncValue, ParseElement, ParseDocument, Norm, Nesting, Wf, Weight, Height, ReferencedIds, ShowNat, IdAttr;
    var toks := EncValue(v, None, n).toks;
    var p, d := Limits(toks + form, length), Fresh(toks + form);
    ValueIssues(v, None, n, {});
    ReferencesAfter(toks, form);
    ReferencesOf(form, n);
    forall i: nat | NextId(n) <= i ensures ShowNat(i) != ShowNat(n) {
      if ShowNat(i) == ShowNat(n) { ShowNatInjective(i, n); }
    }
    ReadKept(p, d, v, n, form);
    Head(toks, form);
    DocumentStart(p, d, []);
    var r := ParseElement(p, d.(rest := toks[1..] + form), "Obj", [IdAttr(n)], 0);
    if r.Ok? {
      var w := Norm(v);
      assert [] + r.value.value.ToSeq() == [w] && [w] + [w] == [w, w];
      NothingAdded(form);
      assert r.value.dec.(rest := form + []) == r.value.dec;
      TopReference(p, r.value.dec, n, w, form, [], [w]);
      var g := Granted(p, r.value.dec.(rest := []), w, 0);
      if g.Ok? {
        DocumentEnd(p, g.value, [w] + [w]);
      }
    }
  }

  /** An object that refers to itself holds `Null` in that place: it is not finished there. */
  lemma CycleIsNull(n: nat, name: string)
    ensures var attrs := NameAttr(Some(name)) + [IdAttr(n)];
      ParsePlainly([Start("Obj", [IdAttr(n)]), Start("MS", []), Empty("Ref", attrs), End("MS"), End("Obj")])
        == Ok([Object([], None, [Prop(name, Null)])])
  {
    hide RefIdOf, NameOf, ShowNat, IdAttr, NameAttr;
    var attrs := NameAttr(Some(name)) + [IdAttr(n)];
    ReadId(n, None);
    ReadId(n, Some(name));
    IdIsNoName(Some(name), n);
    var end := [End("MS"), End("Obj")];
    var toks := [Start("Obj", [IdAttr(n)]), Start("MS", []), Empty("Ref", attrs), End("MS"), End("Obj")];
    assert toks[1..] == [Start("MS", []), Empty("Ref", attrs)] + end && toks[1..][1..] == [Empty("Ref", attrs)] + end;
    assert ([Empty("Ref", attrs)] + end)[1..] == end && end[1..] == [End("Obj")] && [End("Obj")][1..] == [];
    var d := Fresh(toks);
    var members := [Prop(name, Null)];
    assert EmptyMember(Unbounded, d.(rest := end), "Ref", attrs, 1, []) == Ok(Out(members, d.(rest := end)));
    MemberEnd(Unbounded, d.(rest := end), 1, members, "MS");
    assert ParseMemberSet(Unbounded, d.(rest := [Empty("Ref", attrs)] + end), 1, [], "MS")
        == Ok(Out(members, d.(rest := [End("Obj")])));
    BodyStart(Unbounded, d.(rest := toks[1..]), 1, Child([], [], None));
    BodyEnd(Unbounded, d.(rest := [End("Obj")]), 1, Child([], members, None));
    var value := Object([], None, members);
    assert ParseObjBody(Unbounded, d.(rest := toks[1..]), 1, [], [], None) == Ok(Out(value, d.(rest := [])));
    var done := d.(rest := [], refs := d.refs[ShowNat(n) := value]);
    assert ParseElement(Unbounded, d.(rest := toks[1..]), "Obj", [IdAttr(n)], 0) == Ok(Out(Some(value), done));
    DocumentStart(Unbounded, d, []);
    assert [] + Some(value).ToSeq() == [value];
    DocumentEnd(Unbounded, done, [value]);
  }
}
