/** The decoder as the source runs it: a reader and a state that its methods advance in place. */
module Reader {
  import opened Common
  import opened Xml
  import opened Values
  import D = Decoder
  import B = Bounds
  import Escapes

  class ClixmlReader {
    var rest: seq<Token>
    var refs: map<string, Value>
    var expanded: nat
    var typeNames: map<string, seq<string>>
    var depth: nat
    const referenced: set<string>
    const budget: nat
    ghost var copies: seq<Value>

    ghost function State(): D.Dec
      reads this
    {
      D.Dec(rest, refs, expanded, copies, typeNames)
    }

    ghost function Policy(): D.Policy {
      D.Bounded(referenced, budget)
    }

    /** At every moment, failed or not: nesting within the limit, and every copy paid for. */
    ghost predicate Valid()
      reads this
    {
      depth <= D.MAX_NESTING_DEPTH && budget <= D.REF_BUDGET_CEILING && B.Accounted(Policy(), State())
    }

    /** The method did what the specification says, which it needs to on success only. */
    ghost predicate Did<T>(r: Result<T, Fault>, spec: Result<D.Out<T>, Fault>)
      reads this
    {
      if spec.Ok? then r == Ok(spec.value.value) && State() == spec.value.dec else r == Err(spec.error)
    }

    constructor (toks: seq<Token>, ids: set<string>, limit: nat)
      requires limit <= D.REF_BUDGET_CEILING
      ensures Valid() && State() == D.Fresh(toks) && depth == 0 && referenced == ids && budget == limit
    {
      rest, refs, expanded, typeNames, depth := toks, map[], 0, map[], 0;
      referenced, budget, copies := ids, limit, [];
    }

    // ---- Text ----

    method ReadText(closing: string) returns (r: Result<string, Fault>)
      modifies `rest
      ensures var spec := Xml.ReadText(old(rest), closing, "");
        if spec.Ok? then r == Ok(spec.value.value) && rest == spec.value.rest else r == Err(spec.error)
    {
      hide Escapes.Decode, Escapes.Resolve;
      var out := "";
      while rest != []
        invariant Xml.ReadText(rest, closing, out) == Xml.ReadText(old(rest), closing, "")
        decreases |rest|
      {
        var event := rest[0];
        if event.Bad? {
          return Err(Malformed);
        }
        rest := rest[1..];
        match event {
          case Chars(t) => out := out + t;
          case CData(t) => out := out + t;
          case Ref(name) =>
            var c := Escapes.Resolve(name);
            if c.None? {
              return Err(UnknownEntity);
            }
            out := out + [c.value];
          case End(tag) =>
            if tag == closing {
              var text := Escapes.DecodeLoop(out);
              return Ok(text);
            }
          case _ =>
        }
      }
      return Err(UnexpectedEof);
    }

    method SkipToEnd() returns (r: Result<(), Fault>)
      modifies `rest
      ensures var spec := Xml.SkipToEnd(old(rest), 1);
        if spec.Ok? then r == Ok(()) && rest == spec.value else r == Err(spec.error)
    {
      var open := 1;
      while rest != []
        invariant 1 <= open
        invariant Xml.SkipToEnd(rest, open) == Xml.SkipToEnd(old(rest), 1)
        decreases |rest|
      {
        var event := rest[0];
        if event.Bad? {
          return Err(Malformed);
        }
        rest := rest[1..];
        match event {
          case Start(_, _) => open := open + 1;
          case End(_) =>
            open := open - 1;
            if open == 0 {
              return Ok(());
            }
          case _ =>
        }
      }
      return Ok(());
    }

    method ParseTypeNames() returns (r: Result<seq<string>, Fault>)
      modifies `rest
      ensures var spec := D.ParseTypeNames(old(rest), []);
        if spec.Ok? then r == Ok(spec.value.value) && rest == spec.value.rest else r == Err(spec.error)
    {
      hide Xml.ReadText;
      var names := [];
      while rest != []
        invariant D.ParseTypeNames(rest, names) == D.ParseTypeNames(old(rest), [])
        decreases |rest|
      {
        var event := rest[0];
        if event.Bad? {
          return Err(Malformed);
        }
        rest := rest[1..];
        match event {
          case Start(tag, _) =>
            if tag == "T" {
              var text :- ReadText("T");
              names := names + [text];
            }
          case End(tag) =>
            if tag == "TN" {
              return Ok(names);
            }
          case _ =>
        }
      }
      return Err(UnexpectedEof);
    }

    // ---- References ----

    method Charge(v: Value) returns (r: Result<(), Fault>)
      requires Valid()
      modifies `expanded, `copies
      ensures Valid()
      ensures var spec := D.Charge(budget, old(State()), v);
        if spec.Ok? then r == Ok(()) && State() == spec.value
        else r == Err(spec.error) && expanded == old(expanded) && copies == old(copies)
    {
      hide Measure, B.Accounted;
      B.ChargeAccounts(Policy(), State(), v);
      var total := SatAdd(expanded, Measure(v).weight);
      if total > budget {
        return Err(RefBudgetSpent);
      }
      expanded := total;
      copies := copies + [v];
      return Ok(());
    }

    /** `resolve_ref`. */
    method ResolveRef(attrs: seq<Attr>, level: nat) returns (r: Result<Value, Fault>)
      requires Valid()
      modifies `expanded, `copies
      ensures Valid()
      ensures Did(r, D.ResolveRef(Policy(), old(State()), attrs, depth, level))
    {
      hide Measure, B.Accounted, RefIdOf, D.Charge;
      var id :- RefIdOf(attrs);
      if id.None? || id.value !in refs {
        return Ok(Null);
      }
      var target := refs[id.value];
      if SatAdd32(SatAdd32(depth, level), Measure(target).height) > D.MAX_NESTING_DEPTH {
        return Err(RefTooDeep);
      }
      var _ :- Charge(target);
      return Ok(target);
    }

    method ParseEmpty(tag: string, attrs: seq<Attr>) returns (r: Result<Option<Value>, Fault>)
      requires Valid()
      modifies `expanded, `copies
      ensures Valid()
      ensures Did(r, D.ParseEmpty(Policy(), old(State()), tag, attrs, depth))
    {
      hide D.ResolveRef, B.Accounted;
      if tag == "Nil" {
        return Ok(Some(Null));
      } else if tag == "Ref" {
        var v :- ResolveRef(attrs, 1);
        return Ok(Some(v));
      } else if tag == "S" {
        return Ok(Some(Textual(Str, "")));
      } else if tag == "SBK" || tag == "SCT" {
        return Ok(Some(Textual(ScriptBlock, "")));
      } else {
        return Ok(None);
      }
    }

    lemma AccountedAt(d: D.Dec, rest: seq<Token>, known: map<string, seq<string>>, refs: map<string, Value>)
      requires B.Accounted(Policy(), d)
      ensures B.Accounted(Policy(), d.(rest := rest)) && B.Accounted(Policy(), d.(rest := rest, typeNames := known))
      ensures B.Accounted(Policy(), d.(refs := refs))
    {
      B.AccountedAt(Policy(), d, rest, known, refs);
    }

    /** The next event, and the reader past it. */
    method Next() returns (event: Token)
      requires Valid() && rest != []
      modifies `rest
      ensures Valid() && event == old(rest)[0] && State() == old(State()).(rest := old(rest)[1..])
    {
      hide B.Accounted;
      event := rest[0];
      AccountedAt(State(), rest[1..], map[], map[]);
      rest := rest[1..];
    }

    // ---- Elements ----

    /** The nesting guard: `depth` is back where it was, whatever happened below. */
    method ParseElement(tag: string, attrs: seq<Attr>) returns (r: Result<Option<Value>, Fault>)
      requires Valid()
      modifies this
      ensures Valid() && depth == old(depth)
      ensures Did(r, D.ParseElement(Policy(), old(State()), tag, attrs, old(depth)))
      decreases |rest|, 3
    {
      hide D.ParseInner, B.Accounted;
      if depth >= D.MAX_NESTING_DEPTH {
        return Err(TooDeep);
      }
      depth := depth + 1;
      r := ParseInner(tag, attrs);
      depth := depth - 1;
    }

    method ParseInner(tag: string, attrs: seq<Attr>) returns (r: Result<Option<Value>, Fault>)
      requires Valid()
      modifies this
      ensures Valid() && depth == old(depth)
      ensures Did(r, D.ParseInner(Policy(), old(State()), tag, attrs, old(depth)))
      decreases |rest|, 2
    {
      hide D.ParseObjBody, D.ResolveRef, D.Charge, Xml.ReadText, Xml.SkipToEnd, D.ScalarOf, D.IsScalarTag, RefIdOf,
           B.Accounted, Measure;
      if tag == "Obj" {
        var id :- RefIdOf(attrs);
        var v :- ParseObjBody();
        if id.Some? && id.value in referenced {
          var _ :- Charge(v);
          AccountedAt(State(), rest, typeNames, refs[id.value := v]);
          refs := refs[id.value := v];
        }
        return Ok(Some(v));
      } else if tag == "Ref" {
        var v :- ResolveRef(attrs, 0);
        var _ :- Skip();
        return Ok(Some(v));
      } else if D.IsScalarTag(tag) {
        var text :- Text(tag);
        var v :- D.ScalarOf(tag, text);
        return Ok(Some(v));
      } else {
        var _ :- Skip();
        return Ok(None);
      }
    }

    method Skip() returns (r: Result<(), Fault>)
      requires Valid()
      modifies `rest
      ensures Valid()
      ensures var spec := Xml.SkipToEnd(old(rest), 1);
        if spec.Ok? then r == Ok(()) && State() == old(State()).(rest := spec.value) else r == Err(spec.error)
    {
      hide Xml.SkipToEnd, B.Accounted;
      r := SkipToEnd();
      AccountedAt(old(State()), rest, map[], map[]);
    }

    method Text(closing: string) returns (r: Result<string, Fault>)
      requires Valid()
      modifies `rest
      ensures Valid()
      ensures var spec := Xml.ReadText(old(rest), closing, "");
        if spec.Ok? then r == Ok(spec.value.value) && State() == old(State()).(rest := spec.value.rest)
        else r == Err(spec.error)
    {
      hide Xml.ReadText, B.Accounted;
      r := ReadText(closing);
      AccountedAt(old(State()), rest, map[], map[]);
    }

    method TypeNames(attrs: seq<Attr>) returns (r: Result<seq<string>, Fault>)
      requires Valid()
      modifies `rest, `typeNames
      ensures Valid()
      ensures var id := RefIdOf(attrs);
        var spec := D.ParseTypeNames(old(rest), []);
        if id.Err? then r == Err(id.error)
        else if spec.Err? then r == Err(spec.error)
        else r == Ok(spec.value.value)
             && State() == old(State()).(rest := spec.value.rest,
                  typeNames := if id.value.Some? then old(typeNames)[id.value.value := spec.value.value] else old(typeNames))
    {
      hide D.ParseTypeNames, RefIdOf, B.Accounted;
      var id :- RefIdOf(attrs);
      r := ParseTypeNames();
      AccountedAt(old(State()), rest, map[], map[]);
      if r.Ok? && id.Some? {
        AccountedAt(old(State()), rest, typeNames[id.value := r.value], map[]);
        typeNames := typeNames[id.value := r.value];
      }
    }

    /** `parse_obj_body`. */
    method ParseObjBody() returns (r: Result<Value, Fault>)
      requires Valid()
      modifies this
      ensures Valid() && depth == old(depth)
      ensures Did(r, D.ParseObjBody(Policy(), old(State()), depth, [], [], None))
      decreases |rest|, 0
    {
      hide D.ParseChild, RefIdOf, B.Accounted, D.Finish;
      ghost var spec := D.ParseObjBody(Policy(), State(), depth, [], [], None);
      var names: seq<string>, props: seq<Prop>, embedded: Option<Value> := [], [], None;
      while rest != []
        invariant Valid() && depth == old(depth) && |rest| <= |old(rest)|
        invariant D.ParseObjBody(Policy(), State(), depth, names, props, embedded) == spec
        decreases |rest|
      {
        if rest[0].Bad? {
          return Err(Malformed);
        }
        var event := Next();
        match event {
          case Start(tag, attrs) =>
            var c := ParseChild(tag, attrs, names, props, embedded);
            if c.Err? {
              return Err(c.error);
            }
            names, props, embedded := c.value.names, c.value.props, c.value.embedded;
          case Empty(tag, attrs) =>
            if tag == "TNRef" {
              var id :- RefIdOf(attrs);
              names := Known(id, names);
            }
          case End(tag) =>
            if tag == "Obj" {
              return Ok(D.Finish(names, props, embedded));
            }
          case _ =>
        }
      }
      return Err(UnexpectedEof);
    }

    /** The type names under that id, or those there are. */
    function Known(id: Option<string>, names: seq<string>): seq<string>
      reads this
    {
      if id.Some? && id.value in typeNames then typeNames[id.value] else names
    }

    /** One child element of an object. */
    method ParseChild(tag: string, attrs: seq<Attr>, names: seq<string>, props: seq<Prop>, embedded: Option<Value>)
      returns (r: Result<D.Child, Fault>)
      requires Valid()
      modifies this
      ensures Valid() && depth == old(depth)
      ensures Did(r, D.ParseChild(Policy(), old(State()), tag, attrs, depth, D.Child(names, props, embedded)))
      decreases |rest|, 4
    {
      hide D.ParseElement, D.ParseMemberSet, D.ParseList, D.ParseDict, D.ParseTypeNames, Xml.SkipToEnd, RefIdOf,
           B.Accounted, D.IsListTag;
      if tag == "MS" || tag == "Props" {
        var members :- ParseMemberSet(props, tag);
        return Ok(D.Child(names, members, embedded));
      } else if tag == "TN" {
        var read :- TypeNames(attrs);
        return Ok(D.Child(read, props, embedded));
      } else if tag == "TNRef" {
        var id :- RefIdOf(attrs);
        var _ :- Skip();
        return Ok(D.Child(Known(id, names), props, embedded));
      } else if D.IsListTag(tag) {
        var items :- ParseList(tag);
        return Ok(D.Child(names, props, Some(List(items))));
      } else if tag == "DCT" {
        var entries :- ParseDict();
        return Ok(D.Child(names, props, Some(Dict(entries))));
      } else {
        var v :- ParseElement(tag, attrs);
        return Ok(D.Child(names, props, if embedded.None? then v else embedded));
      }
    }

    /** `parse_member_set`, inserting into the properties there are. */
    method ParseMemberSet(before: seq<Prop>, closing: string) returns (r: Result<seq<Prop>, Fault>)
      requires Valid()
      modifies this
      ensures Valid() && depth == old(depth)
      ensures Did(r, D.ParseMemberSet(Policy(), old(State()), depth, before, closing))
      decreases |rest|, 0
    {
      hide D.ParseElement, D.ParseEmpty, NameOf, B.Accounted, Insert;
      ghost var spec := D.ParseMemberSet(Policy(), State(), depth, before, closing);
      var props := before;
      while rest != []
        invariant Valid() && depth == old(depth) && |rest| <= |old(rest)|
        invariant D.ParseMemberSet(Policy(), State(), depth, props, closing) == spec
        decreases |rest|
      {
        if rest[0].Bad? {
          return Err(Malformed);
        }
        var event := Next();
        match event {
          case Start(tag, attrs) =>
            var name :- NameOf(attrs);
            var v :- ParseElement(tag, attrs);
            if v.Some? {
              props := Insert(props, name.UnwrapOr(""), v.value);
            }
          case Empty(tag, attrs) =>
            D.ParseEmptyKeepsRest(Policy(), State(), tag, attrs, depth);
            if tag == "Nil" {
              var name :- NameOf(attrs);
              if name.Some? {
                props := Insert(props, name.value, Null);
              }
            } else {
              var v :- ParseEmpty(tag, attrs);
              if v.Some? {
                var name :- NameOf(attrs);
                props := Insert(props, name.UnwrapOr(""), v.value);
              }
            }
          case End(tag) =>
            if tag == closing {
              return Ok(props);
            }
          case _ =>
        }
      }
      return Err(UnexpectedEof);
    }

    /** `parse_list`. */
    method ParseList(closing: string) returns (r: Result<seq<Value>, Fault>)
      requires Valid()
      modifies this
      ensures Valid() && depth == old(depth)
      ensures Did(r, D.ParseList(Policy(), old(State()), depth, [], closing))
      decreases |rest|, 0
    {
      hide D.ParseElement, D.ParseEmpty, B.Accounted;
      ghost var spec := D.ParseList(Policy(), State(), depth, [], closing);
      var items: seq<Value> := [];
      while rest != []
        invariant Valid() && depth == old(depth) && |rest| <= |old(rest)|
        invariant D.ParseList(Policy(), State(), depth, items, closing) == spec
        decreases |rest|
      {
        if rest[0].Bad? {
          return Err(Malformed);
        }
        var event := Next();
        match event {
          case Start(tag, attrs) =>
            var v :- ParseElement(tag, attrs);
            items := items + v.ToSeq();
          case Empty(tag, attrs) =>
            D.ParseEmptyKeepsRest(Policy(), State(), tag, attrs, depth);
            var v :- ParseEmpty(tag, attrs);
            items := items + v.ToSeq();
          case End(tag) =>
            if tag == closing {
              return Ok(items);
            }
          case _ =>
        }
      }
      return Err(UnexpectedEof);
    }

    /** `parse_dict`. */
    method ParseDict() returns (r: Result<seq<Entry>, Fault>)
      requires Valid()
      modifies this
      ensures Valid() && depth == old(depth)
      ensures Did(r, D.ParseDict(Policy(), old(State()), depth, []))
      decreases |rest|, 0
    {
      hide D.ParseDictEntry, B.Accounted;
      ghost var spec := D.ParseDict(Policy(), State(), depth, []);
      var entries: seq<Entry> := [];
      while rest != []
        invariant Valid() && depth == old(depth) && |rest| <= |old(rest)|
        invariant D.ParseDict(Policy(), State(), depth, entries) == spec
        decreases |rest|
      {
        if rest[0].Bad? {
          return Err(Malformed);
        }
        var event := Next();
        match event {
          case Start(tag, _) =>
            if tag == "En" {
              var e :- ParseDictEntry();
              entries := entries + [e];
            }
          case End(tag) =>
            if tag == "DCT" {
              return Ok(entries);
            }
          case _ =>
        }
      }
      return Err(UnexpectedEof);
    }

    /** `parse_dict_entry`. */
    method ParseDictEntry() returns (r: Result<Entry, Fault>)
      requires Valid()
      modifies this
      ensures Valid() && depth == old(depth)
      ensures Did(r, D.ParseDictEntry(Policy(), old(State()), depth, Entry(Null, Null)))
      decreases |rest|, 0
    {
      hide D.ParseElement, D.ParseEmpty, NameOf, B.Accounted, D.SetEntry;
      var e := Entry(Null, Null);
      ghost var spec := D.ParseDictEntry(Policy(), State(), depth, e);
      while rest != []
        invariant Valid() && depth == old(depth) && |rest| <= |old(rest)|
        invariant D.ParseDictEntry(Policy(), State(), depth, e) == spec
        decreases |rest|
      {
        if rest[0].Bad? {
          return Err(Malformed);
        }
        var event := Next();
        match event {
          case Start(tag, attrs) =>
            var name :- NameOf(attrs);
            var v :- ParseElement(tag, attrs);
            if v.Some? {
              e := D.SetEntry(e, name.UnwrapOr(""), v.value);
            }
          case Empty(tag, attrs) =>
            D.ParseEmptyKeepsRest(Policy(), State(), tag, attrs, depth);
            var v :- ParseEmpty(tag, attrs);
            if v.Some? {
              var name :- NameOf(attrs);
              e := D.SetEntry(e, name.UnwrapOr(""), v.value);
            }
          case End(tag) =>
            if tag == "En" {
              return Ok(e);
            }
          case _ =>
        }
      }
      return Err(UnexpectedEof);
    }

    /** The top-level loop. */
    method ParseDocument() returns (r: Result<seq<Value>, Fault>)
      requires Valid() && depth == 0
      modifies this
      ensures Valid() && depth == 0
      ensures Did(r, D.ParseDocument(Policy(), old(State()), []))
    {
      hide D.ParseElement, D.ParseEmpty, B.Accounted;
      ghost var spec := D.ParseDocument(Policy(), State(), []);
      var values: seq<Value> := [];
      while rest != []
        invariant Valid() && depth == 0 && |rest| <= |old(rest)|
        invariant D.ParseDocument(Policy(), State(), values) == spec
        decreases |rest|
      {
        if rest[0].Bad? {
          return Err(Malformed);
        }
        var event := Next();
        match event {
          case Start(tag, attrs) =>
            var v :- ParseElement(tag, attrs);
            values := values + v.ToSeq();
          case Empty(tag, attrs) =>
            D.ParseEmptyKeepsRest(Policy(), State(), tag, attrs, 0);
            var v :- ParseEmpty(tag, attrs);
            values := values + v.ToSeq();
          case _ =>
        }
      }
      return Ok(values);
    }
  }

  /** The pre-scan for referenced ids. */
  method ReferencedIds(toks: seq<Token>) returns (ids: set<string>)
    ensures ids == D.ReferencedIds(toks)
  {
    hide RefIdOf;
    ids := {};
    var i := 0;
    while i < |toks| && !toks[i].Bad?
      invariant i <= |toks|
      invariant D.ReferencedIds(toks) == ids + D.ReferencedIds(toks[i..])
    {
      assert toks[i..][1..] == toks[i + 1..];
      if (toks[i].Start? || toks[i].Empty?) && toks[i].tag == "Ref" {
        var id := RefIdOf(toks[i].attrs);
        if id.Ok? && id.value.Some? {
          ids := ids + {id.value.value};
        }
      }
      i := i + 1;
    }
  }

  /** `parse_clixml`, for a document of `length` bytes read as `toks`. */
  method ParseClixml(toks: seq<Token>, length: nat) returns (r: Result<seq<Value>, Fault>)
    ensures r == D.ParseClixml(toks, length)
    ensures r.Ok? ==> ItemsHeight(r.value) <= 2 * D.MAX_NESTING_DEPTH
  {
    hide D.ParseDocument, D.ReferencedIds, ItemsHeight;
    B.BudgetIsBounded(length);
    B.DecodedHeight(toks, length);
    var ids := ReferencedIds(toks);
    var reader := new ClixmlReader(toks, ids, D.RefBudget(length));
    r := reader.ParseDocument();
  }
}
