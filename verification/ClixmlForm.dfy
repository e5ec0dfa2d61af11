/** CLIXML letter by letter (section 2.2.5 of MS-PSRP): what the encoder writes, and what else the decoder takes. */
module ClixmlForm {
  import opened Common
  import opened Text
  import opened Escapes
  import opened Xml
  import opened Values
  import opened Encoder
  import opened Decoder
  import Base64
  import W = WireForm

  // ---- Text ----

  const UPPER: string := "0123456789ABCDEF"

  /** `_x`, four uppercase digits, `_`. */
  lemma EscapeAsWritten(unit: nat)
    requires unit < 0x1_0000
    ensures PwshEscape(unit)
         == ['_', 'x', UPPER[unit / 4096], UPPER[unit / 256 % 16], UPPER[unit / 16 % 16], UPPER[unit % 16], '_']
  {
    hide UpperHex;
    W.DigitsAsListed(unit / 4096);
    W.DigitsAsListed(unit / 256 % 16);
    W.DigitsAsListed(unit / 16 % 16);
    W.DigitsAsListed(unit % 16);
  }

  predicate IsX(s: string) {
    s != "" && (s[0] == 'x' || s[0] == 'X')
  }

  predicate StandsForItself(c: char, rest: string, attribute: bool) {
    && c != '<' && c != '>' && c != '&' && c != '"' && c != '\'' && (c != '_' || !IsX(rest))
    && (c >= ' ' || (!attribute && (c == '\t' || c == '\n')))
  }

  /** One character at a time: the five of XML as entities, controls and a `_` before an `x` as PowerShell escapes. */
  lemma TextAsWritten(c: char, rest: string, attribute: bool)
    ensures var e := Escape([c] + rest, attribute);
      && (c == '<' ==> e == "&lt;" + Escape(rest, attribute))
      && (c == '>' ==> e == "&gt;" + Escape(rest, attribute))
      && (c == '&' ==> e == "&amp;" + Escape(rest, attribute))
      && (c == '"' ==> e == "&quot;" + Escape(rest, attribute))
      && (c == '\'' ==> e == "&apos;" + Escape(rest, attribute))
    ensures var e := Escape([c] + rest, attribute);
      && (c == '_' && IsX(rest) ==> e == PwshEscape(0x5F) + Escape(rest, attribute))
      && (c < ' ' && (attribute || (c != '\t' && c != '\n')) ==> e == PwshEscape(c as int) + Escape(rest, attribute))
      && (StandsForItself(c, rest, attribute) ==> e == [c] + Escape(rest, attribute))
  {
    hide PwshEscape;
    var s := [c] + rest;
    assert s[1..] == rest && (|s| > 1 ==> s[1] == rest[0]);
    Entities();
  }

  lemma Entities()
    ensures "&" + "lt" + ";" == "&lt;" && "&" + "gt" + ";" == "&gt;" && "&" + "amp" + ";" == "&amp;"
    ensures "&" + "quot" + ";" == "&quot;" && "&" + "apos" + ";" == "&apos;"
  {
  }

  /** An escape is read with digits of either case. */
  lemma EscapeAsRead(a: nat, b: nat, c: nat, d: nat, digits: string, rest: string)
    requires a < 16 && b < 16 && c < 16 && d < 16 && (digits == UPPER || digits == W.DIGITS)
    ensures OpeningEscape(['_', 'x', digits[a], digits[b], digits[c], digits[d], '_'] + rest)
         == Some(a * 0x1000 + b * 0x100 + c * 0x10 + d)
  {
    hide HexValue;
    W.DigitsAsListed(a);
    W.DigitsAsListed(b);
    W.DigitsAsListed(c);
    W.DigitsAsListed(d);
    PlusIsNoDigit();
  }

  lemma PlusIsNoDigit()
    ensures HexValue('+') == None
  {
  }

  /** The references of XML: five names, and characters by number. */
  lemma ReferencesAsRead(n: nat)
    ensures Resolve("lt") == Some('<') && Resolve("gt") == Some('>') && Resolve("amp") == Some('&')
    ensures Resolve("quot") == Some('"') && Resolve("apos") == Some('\'')
    ensures 0 < n && IsScalar(n) ==> Resolve("#" + ShowNat(n)) == Some(n as char)
    ensures Resolve("#x41") == Some('A') && Resolve("#xFFfd") == Some('\U{FFFD}') && Resolve("#0") == None
  {
    var s := "#" + ShowNat(n);
    assert s[1..] == ShowNat(n);
    ParseShownNat(n);
    HexExamples();
    assert "#0"[1..] == "0" && ParseDigits("0") == Some(0);
  }

  lemma HexExamples()
    ensures Resolve("#x41") == Some('A') && Resolve("#xFFfd") == Some('\U{FFFD}')
  {
    assert "#x41"[2..] == "41" && "41"[..1] == "4" && HexNumber("4") == Some(4) && HexNumber("41") == Some(0x41);
    assert "#xFFfd"[2..] == "FFfd" && "FFfd"[..3] == "FFf" && "FFf"[..2] == "FF" && "FF"[..1] == "F";
    assert HexNumber("F") == Some(15) && HexNumber("FF") == Some(255) && HexNumber("FFf") == Some(4095);
  }

  /** In an attribute a tab and a line break, CR and LF together being one, are a space each. */
  lemma BreaksAreSpaces(c: char, rest: string)
    ensures var s := [c] + rest;
      && (c == '\t' || c == '\n' ==> SpaceOut(s) == " " + SpaceOut(rest))
      && (c == '\r' && (rest == "" || rest[0] != '\n') ==> SpaceOut(s) == " " + SpaceOut(rest))
      && (c == '\r' && rest != "" && rest[0] == '\n' ==> SpaceOut(s) == " " + SpaceOut(rest[1..]))
      && (c != '\t' && c != '\n' && c != '\r' ==> SpaceOut(s) == [c] + SpaceOut(rest))
  {
    var s := [c] + rest;
    assert s[1..] == rest && (rest != "" ==> s[1] == rest[0] && s[2..] == rest[1..]);
  }

  // ---- Elements ----

  /** An element with text in it. */
  function Written(tag: string, name: Option<string>, text: string): seq<Token> {
    [Start(tag, if name.Some? then [Attr("N", Escape(name.value, true))] else [])] + (Lex(text) + [End(tag)])
  }

  /** A scalar is one element, its kind the tag and its name the attribute `N`. */
  lemma ScalarAsWritten(v: Value, name: Option<string>, next: nat)
    ensures var e := EncValue(v, name, next);
      && (v.Null? ==> e.toks == [Empty("Nil", if name.Some? then [Attr("N", Escape(name.value, true))] else [])])
      && (v.Bool? ==> e.toks == Written("B", name, if v.b then "true" else "false"))
      && (v.Decimal? ==> e.toks == Written("D", name, Escape(v.digits, false)))
      && (v.Char? && v.c as int < 0x1_0000 ==> e.toks == Written("C", name, ShowNat(v.c as int)))
      && (v.Char? && v.c as int >= 0x1_0000 ==> e.toks == Written("C", name, ShowNat(0xFFFD)))
      && (v.Bytes? ==> e.toks == Written("BA", name, Base64.Encode(v.bytes)))
      && (v.GuidValue? ==> e.toks == Written("G", name, ShowGuid(v.g)))
  {
    hide Lex, Escape, ShowNat, Base64.Encode, ShowGuid;
  }

  lemma IntAsWritten(k: IntKind, i: int, name: Option<string>, next: nat)
    ensures var e := EncValue(Int(k, i), name, next);
      && (k.SB? ==> e.toks == Written("SB", name, ShowInt(i))) && (k.By? ==> e.toks == Written("By", name, ShowInt(i)))
      && (k.I16? ==> e.toks == Written("I16", name, ShowInt(i))) && (k.U16? ==> e.toks == Written("U16", name, ShowInt(i)))
      && (k.I32? ==> e.toks == Written("I32", name, ShowInt(i))) && (k.U32? ==> e.toks == Written("U32", name, ShowInt(i)))
      && (k.I64? ==> e.toks == Written("I64", name, ShowInt(i))) && (k.U64? ==> e.toks == Written("U64", name, ShowInt(i)))
  {
    hide Lex, Escape, ShowInt;
  }

  lemma TextualAsWritten(k: TextKind, s: string, name: Option<string>, next: nat)
    ensures var e := EncValue(Textual(k, s), name, next); var t := Escape(s, false);
      && (k.Str? ==> e.toks == Written("S", name, t)) && (k.DateTime? ==> e.toks == Written("DT", name, t))
      && (k.Duration? ==> e.toks == Written("TS", name, t)) && (k.Version? ==> e.toks == Written("Version", name, t))
      && (k.Uri? ==> e.toks == Written("URI", name, t)) && (k.Xml? ==> e.toks == Written("XD", name, t))
      && (k.ScriptBlock? ==> e.toks == Written("SBK", name, t)) && (k.SecureString? ==> e.toks == Written("SS", name, t))
  {
    hide Lex, Escape;
  }

  /** The start tag of an object, with its name and its id. */
  function ObjectTag(name: Option<string>, id: nat): Token {
    Start("Obj", (if name.Some? then [Attr("N", Escape(name.value, true))] else []) + [Attr("RefId", ShowNat(id))])
  }

  /** A list and a dictionary stand alone in an object of their own. */
  lemma ContainerAsWritten(v: Value, name: Option<string>, next: nat)
    ensures v.List? ==>
      EncValue(v, name, next).toks == [ObjectTag(name, next), Start("LST", [])] + EncItems(v.items, NextId(next)).toks
                                      + [End("LST"), End("Obj")]
    ensures v.Dict? ==>
      EncValue(v, name, next).toks == [ObjectTag(name, next), Start("DCT", [])] + EncEntries(v.entries, NextId(next)).toks
                                      + [End("DCT"), End("Obj")]
  {
    hide EncItems, EncEntries, Escape, ShowNat;
    match v
    case List(items) => Four(ObjectTag(name, next), Start("LST", []), EncItems(items, NextId(next)).toks);
    case Dict(entries) => Four(ObjectTag(name, next), Start("DCT", []), EncEntries(entries, NextId(next)).toks);
    case _ =>
  }

  lemma Four(a: Token, b: Token, toks: seq<Token>)
    requires b.Start?
    ensures [a] + (([b] + (toks + [End(b.tag)])) + [End("Obj")]) == [a, b] + toks + [End(b.tag), End("Obj")]
  {
  }

  lemma EntryAsWritten(e: Entry, next: nat)
    ensures var k := EncValue(e.key, Some("Key"), next);
      EncEntry(e, next).toks == [Start("En", [])] + (k.toks + (EncValue(e.val, Some("Value"), k.next).toks + [End("En")]))
  {
    hide EncValue;
  }

  /** An object: its type names under an id of their own, its text, its bare value, its members. */
  lemma ObjectAsWritten(names: seq<string>, display: Option<string>, props: seq<Prop>, name: Option<string>, next: nat)
    ensures var id := NextId(next); var from := if names == [] then id else NextId(id);
      var bare := EncBareValue(props, from); var others := EncProps(props, bare.next);
      EncValue(Object(names, display, props), name, next).toks
        == [ObjectTag(name, next)]
           + (((if names == [] then [] else [Start("TN", [Attr("RefId", ShowNat(id))])] + (TypeNameItems(names) + [End("TN")]))
               + ((if display.None? then [] else Written("ToString", None, Escape(display.value, false)))
                  + (bare.toks
                     + (if Without(props, "_value") == [] then []
                        else [Start("MS", [])] + (others.toks + [End("MS")])))))
              + [End("Obj")])
  {
    hide EncBareValue, EncProps, Escape, ShowNat, Lex, TypeNameItems, Without;
  }

  lemma TypeNameAsWritten(names: seq<string>)
    requires names != []
    ensures TypeNameItems(names) == Written("T", None, Escape(names[0], false)) + TypeNameItems(names[1..])
  {
    hide Lex, Escape;
  }

  /** Plain text is one run. */
  lemma PlainRun(s: string)
    requires s != "" && '&' !in s
    ensures Lex(s) == [Chars(s)]
  {
    NoAmpersand(s);
    assert s[|s|..] == "" && s[..|s|] == s;
    assert s[0] in s;
  }

  lemma {:induction false} NoAmpersand(s: string)
    requires '&' !in s
    ensures NextAmpersand(s) == |s|
  {
    if s != "" {
      NoAmpersand(s[1..]);
      assert s[0] in s;
    }
  }

  /** A small document, whole: a list of one string. */
  lemma DocumentAsWritten()
    ensures ToClixml(List([Textual(Str, "a<b")]))
         == [Start("Obj", [Attr("RefId", "0")]), Start("LST", []), Start("S", []), Chars("a"), Ref("lt"), Chars("b"),
             End("S"), End("LST"), End("Obj")]
  {
    hide EncValue, EncItems, Lex, Escape, ShowNat;
    var v := Textual(Str, "a<b");
    ContainerAsWritten(List([v]), None, 0);
    TextualAsWritten(Str, "a<b", None, 1);
    OneItem(v, 1);
    EscapeExample();
    LexExample();
    assert ObjectTag(None, 0) == Start("Obj", [Attr("RefId", "0")]) by {
      assert [] + [Attr("RefId", "0")] == [Attr("RefId", "0")];
    }
    assert EncValue(v, None, 1).toks == [Start("S", []), Chars("a"), Ref("lt"), Chars("b"), End("S")];
  }

  lemma OneItem(v: Value, next: nat)
    ensures EncItems([v], next).toks == EncValue(v, None, next).toks && ShowNat(0) == "0" && NextId(0) == 1
  {
    hide EncValue;
    assert [v][1..] == [];
    NothingAdded(EncValue(v, None, next).toks);
  }

  lemma EscapeExample()
    ensures Escape("a<b", false) == "a&lt;b"
  {
    hide Escape;
    assert "a<b" == ['a'] + "<b" && "<b" == ['<'] + "b" && "b" == ['b'] + "";
    TextAsWritten('a', "<b", false);
    TextAsWritten('<', "b", false);
    TextAsWritten('b', "", false);
    EscapeNothing(false);
    assert "&lt;" + "b" == "&lt;b" && ['a'] + "&lt;b" == "a&lt;b";
  }

  lemma LexExample()
    ensures Lex("a&lt;b") == [Chars("a"), Ref("lt"), Chars("b")]
  {
    var s := "a&lt;b";
    PlainRun("b");
    assert s[1..] == "&lt;b" && "&lt;b"[1..] == "lt;b" && "lt;b"[1..] == "t;b" && "t;b"[1..] == ";b";
    assert Semicolon(";b") == 0 && Semicolon("t;b") == 1 && Semicolon("lt;b") == 2;
    assert FirstEvent("&lt;b") == (Ref("lt"), 4) by { assert "&lt;b"[1..3] == "lt"; }
    assert "&lt;b"[4..] == "b";
    assert Lex("&lt;b") == [Ref("lt")] + Lex("b");
    assert NextAmpersand("&lt;b") == 0 && NextAmpersand(s) == 1 && s[..1] == "a";
  }

  // ---- What else is taken ----

  /** Booleans in any case or as digits, numbers with a plus, characters that are none, GUIDs in all their forms. */
  lemma SpellingsTaken(n: nat, g: Guid)
    ensures ScalarOf("B", " TRUE ") == Ok(Bool(true)) && ScalarOf("B", "1") == Ok(Bool(true))
    ensures ScalarOf("B", "False") == Ok(Bool(false)) && ScalarOf("B", "0") == Ok(Bool(false))
    ensures n <= 0x7FFF_FFFF ==> ParseInt("+" + ShowNat(n), Lowest(I32), Highest(I32)) == Some(n)
    ensures CharOf(0xD800) == '\U{FFFD}' && CharOf(0x11_0000) == '\U{FFFD}' && CharOf(0x41) == 'A'
    ensures ParseGuid("{" + ShowGuid(g) + "}") == Some(g) && ParseGuid("urn:uuid:" + ShowGuid(g)) == Some(g)
    ensures ParseGuid(Hex(g)) == Some(g)
  {
    hide ScalarOf, ParseGuid, ShowGuid, Hex, ShowNat, ParseDigits;
    BooleansTaken();
    ParseShownNat(n);
    assert ("+" + ShowNat(n))[1..] == ShowNat(n);
    GuidsTaken(g);
  }

  lemma BooleansTaken()
    ensures ScalarOf("B", " TRUE ") == Ok(Bool(true)) && ScalarOf("B", "1") == Ok(Bool(true))
    ensures ScalarOf("B", "False") == Ok(Bool(false)) && ScalarOf("B", "0") == Ok(Bool(false))
  {
    hide Trim, Lower;
    assert IntKindOf("B") == None && TextKindOf("B") == None;
    TrimmedWords();
    LoweredWords();
  }

  lemma TrimmedWords()
    ensures Trim(" TRUE ") == "TRUE" && Trim("1") == "1" && Trim("0") == "0" && Trim("False") == "False"
  {
    assert " TRUE "[1..] == "TRUE " && TrimStart("TRUE ") == "TRUE " && "TRUE "[..4] == "TRUE";
    assert TrimStart(" TRUE ") == "TRUE " && TrimEnd("TRUE") == "TRUE";
    TrimIdentity("1");
    TrimIdentity("0");
    TrimIdentity("False");
  }

  lemma LoweredWords()
    ensures Lower("TRUE") == "true" && Lower("False") == "false" && Lower("1") == "1" && Lower("0") == "0"
  {
    assert Lower("E") == "e" && Lower("UE") == "ue" && Lower("RUE") == "rue";
    assert Lower("e") == "e" && Lower("se") == "se" && Lower("lse") == "lse" && Lower("alse") == "alse";
  }

  lemma GuidsTaken(g: Guid)
    ensures ParseGuid("{" + ShowGuid(g) + "}") == Some(g) && ParseGuid("urn:uuid:" + ShowGuid(g)) == Some(g)
    ensures ParseGuid(Hex(g)) == Some(g)
  {
    hide ShowGuid, ParseHex, Hex;
    ParseShownGuid(g);
    ParseHexOfHex(g);
    W.GuidText(g, 0);
    var s := ShowGuid(g);
    var braced, urn := "{" + s + "}", "urn:uuid:" + s;
    assert braced[1..37] == s && urn[..9] == "urn:uuid:" && urn[9..] == s;
  }

  /** Queues, stacks and enumerations are read as lists, and the two member sets alike. */
  lemma ListsTaken(p: Policy, d: Dec, tag: string, attrs: seq<Attr>, depth: nat, c: Child)
    requires tag == "LST" || tag == "IE" || tag == "QUE" || tag == "STK"
    ensures var l := ParseList(p, d, depth, [], tag);
      ParseChild(p, d, tag, attrs, depth, c)
        == if l.Ok? then Ok(Out(c.(embedded := Some(List(l.value.value))), l.value.dec)) else Err(l.error)
  {
    hide ParseList, ParseMemberSet, ParseElement, ParseTypeNames, SkipToEnd;
    assert |"LST"| == 3 && |"IE"| == 2 && |"QUE"| == 3 && |"STK"| == 3 && |"MS"| == 2 && |"TN"| == 2 && |"Props"| == 5
        && |"TNRef"| == 5;
  }

  lemma MemberSetsTaken(p: Policy, d: Dec, tag: string, attrs: seq<Attr>, depth: nat, c: Child)
    requires tag == "MS" || tag == "Props"
    ensures var m := ParseMemberSet(p, d, depth, c.props, tag);
      ParseChild(p, d, tag, attrs, depth, c)
        == if m.Ok? then Ok(Out(c.(props := m.value.value), m.value.dec)) else Err(m.error)
  {
    hide ParseList, ParseMemberSet, ParseElement, ParseTypeNames, SkipToEnd;
  }

  /** Self-closed elements, and the older tag of script blocks. */
  lemma EmptyFormsTaken(p: Policy, d: Dec, attrs: seq<Attr>, depth: nat)
    ensures ParseEmpty(p, d, "Nil", attrs, depth) == Ok(Out(Some(Null), d))
    ensures ParseEmpty(p, d, "S", attrs, depth) == Ok(Out(Some(Textual(Str, "")), d))
    ensures ParseEmpty(p, d, "SBK", attrs, depth) == Ok(Out(Some(Textual(ScriptBlock, "")), d))
    ensures ParseEmpty(p, d, "SCT", attrs, depth) == Ok(Out(Some(Textual(ScriptBlock, "")), d))
    ensures ParseEmpty(p, d, "I32", attrs, depth) == Ok(Out(None, d))
    ensures TextKindOf("SCT") == Some(ScriptBlock)
  {
    hide ResolveRef;
    assert |"S"| == 1 && |"SBK"| == 3 && |"SCT"| == 3 && |"I32"| == 3 && |"Nil"| == 3 && |"Ref"| == 3;
  }

  /** Of several bare values the first counts; a list or a dictionary always does. */
  lemma FirstBareValue(p: Policy, d: Dec, tag: string, attrs: seq<Attr>, depth: nat, c: Child)
    requires tag != "MS" && tag != "Props" && tag != "TN" && tag != "TNRef" && tag != "DCT" && !IsListTag(tag)
    ensures var v := ParseElement(p, d, tag, attrs, depth);
      ParseChild(p, d, tag, attrs, depth, c)
        == if v.Err? then Err(v.error)
           else if c.embedded.Some? then Ok(Out(c, v.value.dec))
           else Ok(Out(c.(embedded := v.value.value), v.value.dec))
  {
    hide ParseElement, ParseMemberSet, ParseList, ParseDict, ParseTypeNames, SkipToEnd, IsListTag;
  }

  /** An embedded value shows as `_value`, and only where there is no property. */
  lemma EmbeddedValue(names: seq<string>, props: seq<Prop>, embedded: Option<Value>)
    ensures var v := Finish(names, props, embedded);
      && v.Object? && v.typeNames == names && v.display.None?
      && (props != [] || embedded.None? ==> v.props == props)
      && (props == [] && embedded.Some? ==> v.props == [Prop("_value", embedded.value)])
  {
  }

  /** The ranges of the integer kinds. */
  lemma RangesAsSet()
    ensures Lowest(SB) == -128 && Highest(SB) == 127 && Lowest(By) == 0 && Highest(By) == 255
    ensures Lowest(I16) == -32768 && Highest(I16) == 32767 && Lowest(U16) == 0 && Highest(U16) == 65535
    ensures Lowest(I32) == -2147483648 && Highest(I32) == 2147483647 && Lowest(U32) == 0 && Highest(U32) == 4294967295
    ensures Lowest(I64) == -9223372036854775808 && Highest(I64) == 9223372036854775807
    ensures Lowest(U64) == 0 && Highest(U64) == 18446744073709551615
  {
  }

  /** Text in an element: runs, CDATA and references count, comments do not, and neither do the tags of a child. */
  lemma TextPieces(rest: seq<Token>, closing: string, out: string)
    requires rest != []
    ensures var more := rest[1..];
      && (rest[0].Chars? ==> ReadText(rest, closing, out) == ReadText(more, closing, out + rest[0].raw))
      && (rest[0].CData? ==> ReadText(rest, closing, out) == ReadText(more, closing, out + rest[0].raw))
      && (rest[0].Other? || rest[0].Start? || rest[0].Empty? ==> ReadText(rest, closing, out) == ReadText(more, closing, out))
      && (rest[0].Bad? ==> ReadText(rest, closing, out) == Err(Malformed))
      && (rest[0] == End(closing) ==> ReadText(rest, closing, out) == Ok(Taken(Escapes.Decode(out), more)))
    ensures ReadText([], closing, out) == Err(UnexpectedEof)
  {
    hide Escapes.Decode, Resolve;
  }

  predicate IsFiller(t: Token) {
    t.Chars? || t.Ref? || t.CData? || t.Other?
  }

  /** Text and comments between elements do not count. */
  lemma FillerPassedOver(p: Policy, d: Dec, depth: nat, items: seq<Value>, props: seq<Prop>, entries: seq<Entry>, e: Entry,
                         closing: string)
    requires d.rest != [] && IsFiller(d.rest[0])
    ensures var after := d.(rest := d.rest[1..]);
      && ParseList(p, d, depth, items, closing) == ParseList(p, after, depth, items, closing)
      && ParseMemberSet(p, d, depth, props, closing) == ParseMemberSet(p, after, depth, props, closing)
      && ParseDict(p, d, depth, entries) == ParseDict(p, after, depth, entries)
      && ParseDictEntry(p, d, depth, e) == ParseDictEntry(p, after, depth, e)
      && ParseDocument(p, d, items) == ParseDocument(p, after, items)
  {
  }

  /** An unknown element is skipped with all that is in it, to its end or to that of the document. */
  lemma UnknownIsSkipped(p: Policy, d: Dec, tag: string, attrs: seq<Attr>, depth: nat)
    requires tag != "Obj" && tag != "Ref" && !IsScalarTag(tag) && depth < 64
    ensures var s := SkipToEnd(d.rest, 1);
      ParseElement(p, d, tag, attrs, depth) == if s.Ok? then Ok(Out(None, d.(rest := s.value))) else Err(s.error)
    ensures SkipToEnd([], 1) == Ok([])
  {
    hide IsScalarTag, ReadText, ResolveRef, ParseObjBody;
  }

  /** A document cut short inside an element is refused. */
  lemma CutShort(p: Policy, d: Dec, depth: nat, items: seq<Value>, props: seq<Prop>, entries: seq<Entry>, e: Entry,
                 names: seq<string>, closing: string)
    requires d.rest == []
    ensures ParseList(p, d, depth, items, closing) == Err(UnexpectedEof)
    ensures ParseMemberSet(p, d, depth, props, closing) == Err(UnexpectedEof)
    ensures ParseDict(p, d, depth, entries) == Err(UnexpectedEof) && ParseDictEntry(p, d, depth, e) == Err(UnexpectedEof)
    ensures ParseObjBody(p, d, depth, names, props, None) == Err(UnexpectedEof)
    ensures ParseDocument(p, d, items) == Ok(Out(items, d))
  {
  }
}
