/** XML as the CLIXML layer sees it: the events of the reader, with text and attributes still escaped. */
module Xml {
  import opened Common
  import opened Text
  import opened Escapes

  datatype Attr = Attr(key: string, raw: string)

  /** An event of the reader. `Other` is a comment, a declaration and the like; `Bad` is a syntax error. */
  datatype Token =
    | Start(tag: string, attrs: seq<Attr>)
    | Empty(tag: string, attrs: seq<Attr>)
    | End(tag: string)
    | Chars(raw: string)
    | Ref(name: string)
    | CData(raw: string)
    | Other
    | Bad

  datatype Fault =
    | Malformed
    | UnexpectedEof
    | UnknownEntity
    | BadScalar(tag: string)
    | TooDeep
    | RefTooDeep
    | RefBudgetSpent

  /** The first event of escaped character data, and the characters it takes. */
  function FirstEvent(s: string): (r: (Token, nat))
    requires s != ""
    ensures 0 < r.1 <= |s|
  {
    if s[0] == '&' then
      var k := Semicolon(s[1..]);
      if k == |s| - 1 then (Bad, |s|) else (Ref(s[1..k + 1]), k + 2)
    else (Chars(s[..NextAmpersand(s)]), NextAmpersand(s))
  }

  /** The events of escaped character data: runs of text, and one event per reference. */
  function Lex(s: string): seq<Token>
    decreases |s|
  {
    if s == "" then [] else [FirstEvent(s).0] + Lex(s[FirstEvent(s).1..])
  }

  function NextAmpersand(s: string): (n: nat)
    ensures n <= |s| && '&' !in s[..n]
    ensures s != "" && s[0] != '&' ==> 0 < n
  {
    if s == "" || s[0] == '&' then 0
    else
      var n := NextAmpersand(s[1..]);
      assert s[..n + 1] == [s[0]] + s[1..][..n];
      n + 1
  }

  // ---- Attributes ----

  /** Attribute-value normalization of section 3.3.3 of XML 1.0: a line break or a tab reads as a space. */
  function SpaceOut(s: string): string {
    if s == "" then ""
    else if s[0] == '\r' && |s| > 1 && s[1] == '\n' then " " + SpaceOut(s[2..])
    else if s[0] == '\t' || s[0] == '\n' || s[0] == '\r' then " " + SpaceOut(s[1..])
    else [s[0]] + SpaceOut(s[1..])
  }

  function AttrValue(attrs: seq<Attr>, key: string): Result<Option<string>, Fault> {
    if attrs == [] then Ok(None)
    else if attrs[0].key == key then
      match Unescape(SpaceOut(attrs[0].raw))
      case Some(s) => Ok(Some(s))
      case None => Err(UnknownEntity)
    else AttrValue(attrs[1..], key)
  }

  /** `name_attr`: the property name, both escaping layers taken off. */
  function NameOf(attrs: seq<Attr>): Result<Option<string>, Fault> {
    match AttrValue(attrs, "N")
    case Ok(Some(s)) => Ok(Some(Decode(s)))
    case Ok(None) => Ok(None)
    case Err(e) => Err(e)
  }

  /** `ref_id_attr`. */
  function RefIdOf(attrs: seq<Attr>): Result<Option<string>, Fault> {
    AttrValue(attrs, "RefId")
  }

  // ---- Element text ----

  datatype Taken<T> = Taken(value: T, rest: seq<Token>)

  /** `read_text`: everything textual up to the end tag, comments and child elements passed over. */
  function ReadText(rest: seq<Token>, closing: string, out: string): (r: Result<Taken<string>, Fault>)
    ensures r.Ok? ==> |r.value.rest| < |rest|
  {
    if rest == [] then Err(UnexpectedEof)
    else
      match rest[0]
      case Bad => Err(Malformed)
      case Chars(t) => ReadText(rest[1..], closing, out + t)
      case CData(t) => ReadText(rest[1..], closing, out + t)
      case Ref(name) =>
        (match Resolve(name)
         case Some(c) => ReadText(rest[1..], closing, out + [c])
         case None => Err(UnknownEntity))
      case End(tag) =>
        if tag == closing then Ok(Taken(Decode(out), rest[1..])) else ReadText(rest[1..], closing, out)
      case _ => ReadText(rest[1..], closing, out)
  }

  /** `skip_to_end`: past the end tag of the element `depth` levels out, or to the end of the document. */
  function SkipToEnd(rest: seq<Token>, depth: nat): (r: Result<seq<Token>, Fault>)
    ensures r.Ok? ==> |r.value| <= |rest|
  {
    if rest == [] then Ok([])
    else
      match rest[0]
      case Bad => Err(Malformed)
      case Start(_, _) => SkipToEnd(rest[1..], depth + 1)
      case End(_) => if depth <= 1 then Ok(rest[1..]) else SkipToEnd(rest[1..], depth - 1)
      case _ => SkipToEnd(rest[1..], depth)
  }

  // ---- What the encoder writes reads back ----

  lemma LexReference(s: string)
    requires s != "" && s[0] == '&' && Unescape(s).Some?
    ensures var k := Semicolon(s[1..]);
      && k < |s| - 1
      && FirstEvent(s) == (Ref(s[1..k + 1]), k + 2)
      && Resolve(s[1..k + 1]).Some? && Unescape(s[k + 2..]).Some?
      && Unescape(s).value == [Resolve(s[1..k + 1]).value] + Unescape(s[k + 2..]).value
  {
    hide Resolve, Semicolon, Unescape;
    UnescapeReference(s);
  }

  lemma UnescapeReference(s: string)
    requires s != "" && s[0] == '&'
    ensures var k := Semicolon(s[1..]);
      Unescape(s) == if k == |s| - 1 then None else Joined(Resolved(s[1..k + 1]), Unescape(s[k + 2..]))
  {
    hide Resolved, Semicolon, Joined;
  }

  lemma LexRun(s: string)
    requires s != "" && s[0] != '&' && Unescape(s).Some?
    ensures var n := NextAmpersand(s);
      && 0 < n
      && FirstEvent(s) == (Chars(s[..n]), n)
      && Unescape(s[n..]).Some? && Unescape(s).value == s[..n] + Unescape(s[n..]).value
  {
    hide Unescape, NextAmpersand;
    var n := NextAmpersand(s);
    UnescapePlain(s[..n], s[n..]);
    assert s[..n] + s[n..] == s;
  }

  lemma LexStep(s: string)
    requires s != ""
    ensures Lex(s) == [FirstEvent(s).0] + Lex(s[FirstEvent(s).1..])
  {
    hide FirstEvent;
  }

  lemma Cons<T>(x: T, a: seq<T>, b: seq<T>)
    ensures ([x] + a) + b != [] && (([x] + a) + b)[0] == x && (([x] + a) + b)[1..] == a + b
  {
  }

  lemma ReadTextStep(rest: seq<Token>, closing: string, out: string)
    requires rest != []
    ensures rest[0].Chars? ==> ReadText(rest, closing, out) == ReadText(rest[1..], closing, out + rest[0].raw)
    ensures rest[0].Ref? && Resolve(rest[0].name).Some? ==>
      ReadText(rest, closing, out) == ReadText(rest[1..], closing, out + [Resolve(rest[0].name).value])
    ensures rest[0] == End(closing) ==> ReadText(rest, closing, out) == Ok(Taken(Decode(out), rest[1..]))
  {
    hide Resolve, Decode;
  }

  /** Reading the text of an element undoes both escaping layers, however its events are cut. */
  lemma {:induction false} ReadLexed(body: string, closing: string, tail: seq<Token>, out: string)
    requires Unescape(body).Some?
    ensures ReadText(Lex(body) + ([End(closing)] + tail), closing, out)
         == Ok(Taken(Decode(out + Unescape(body).value), tail))
    decreases |body|
  {
    hide Lex, ReadText, FirstEvent, Decode, Resolve, Semicolon, NextAmpersand, Unescape;
    var end := [End(closing)] + tail;
    if body == "" {
      LexNothing();
      assert [] + end == end && end[1..] == tail;
      ReadTextStep(end, closing, out);
      assert out + "" == out;
    } else if body[0] == '&' {
      LexReference(body);
      LexStep(body);
      var k := Semicolon(body[1..]);
      var r := body[k + 2..];
      Cons(Ref(body[1..k + 1]), Lex(r), end);
      var c := Resolve(body[1..k + 1]).value;
      ReadTextStep(Lex(body) + end, closing, out);
      ReadLexed(r, closing, tail, out + [c]);
      Regroup(out, [c], Unescape(r).value);
    } else {
      LexRun(body);
      LexStep(body);
      var n := NextAmpersand(body);
      var r := body[n..];
      Cons(Chars(body[..n]), Lex(r), end);
      ReadTextStep(Lex(body) + end, closing, out);
      ReadLexed(r, closing, tail, out + body[..n]);
      Regroup(out, body[..n], Unescape(r).value);
    }
  }

  lemma LexNothing()
    ensures Lex("") == [] && Unescape("") == Some("")
  {
  }

  /** A text with neither `&` nor `_` means itself. */
  lemma PlainText(s: string)
    requires forall i :: 0 <= i < |s| ==> s[i] != '&' && s[i] != '_'
    ensures Unescape(s) == Some(s) && Decode(s) == s
  {
    hide OpeningEscape, Utf16Lossy;
    UnescapePlain(s, "");
    assert s + "" == s;
    assert Unescape("") == Some("");
    CopyPlain(s, "");
    NothingOpens();
    LossyNothing();
  }

  lemma EscapedText(s: string, closing: string, tail: seq<Token>)
    ensures ReadText(Lex(Escape(s, false)) + ([End(closing)] + tail), closing, "") == Ok(Taken(s, tail))
  {
    EscapeRoundTrip(s, false);
    ReadLexed(Escape(s, false), closing, tail, "");
    assert "" + Unescape(Escape(s, false)).value == Unescape(Escape(s, false)).value;
  }

  predicate NoBreak(s: string) {
    forall i :: 0 <= i < |s| ==> s[i] != '\t' && s[i] != '\n' && s[i] != '\r'
  }

  lemma {:induction false} SpaceOutNothing(s: string)
    requires NoBreak(s)
    ensures SpaceOut(s) == s
  {
    if s != "" {
      SpaceOutNothing(s[1..]);
      assert s == [s[0]] + s[1..];
    }
  }

  lemma NoBreakFirst(s: string)
    requires s != ""
    ensures NoBreak(EscapeFirst(s, true))
  {
    hide UpperHex;
    if NeedsEscape(s, true) {
      var u := s[0] as int;
      forall n: nat | n < 16 ensures UpperHex(n) as int > 0x20 { HexValueOfUpper(n); UpperHexIsPrinted(n); }
    }
  }

  lemma UpperHexIsPrinted(n: nat)
    requires n < 16
    ensures UpperHex(n) as int > 0x20
  {
  }

  /** An escaped attribute holds nothing that attribute-value normalization changes. */
  lemma {:induction false} NoBreakInAttribute(s: string)
    ensures NoBreak(Escape(s, true))
  {
    hide EscapeFirst;
    if s != "" {
      NoBreakFirst(s);
      NoBreakInAttribute(s[1..]);
    }
  }

  function NameAttr(name: Option<string>): seq<Attr> {
    if name.Some? then [Attr("N", Escape(name.value, true))] else []
  }

  function IdAttr(id: nat): Attr {
    Attr("RefId", ShowNat(id))
  }

  lemma ReadAttr(attrs: seq<Attr>, key: string)
    requires attrs != [] && attrs[0].key == key && NoBreak(attrs[0].raw)
    ensures AttrValue(attrs, key)
         == match Unescape(attrs[0].raw) case Some(s) => Ok(Some(s)) case None => Err(UnknownEntity)
  {
    SpaceOutNothing(attrs[0].raw);
  }

  /** The name comes back. */
  lemma ReadName(name: Option<string>, more: seq<Attr>)
    requires forall i :: 0 <= i < |more| ==> more[i].key != "N"
    ensures NameOf(NameAttr(name) + more) == Ok(name)
  {
    hide Escape, Unescape, Decode;
    var attrs := NameAttr(name) + more;
    if name.Some? {
      NoBreakInAttribute(name.value);
      EscapeRoundTrip(name.value, true);
      ReadAttr(attrs, "N");
    } else {
      assert attrs == more;
      NoAttr(more, "N");
    }
  }

  lemma {:induction false} NoAttr(attrs: seq<Attr>, key: string)
    requires forall i :: 0 <= i < |attrs| ==> attrs[i].key != key
    ensures AttrValue(attrs, key) == Ok(None)
  {
    if attrs != [] {
      NoAttr(attrs[1..], key);
    }
  }

  lemma ReadId(id: nat, name: Option<string>)
    ensures RefIdOf([IdAttr(id)]) == Ok(Some(ShowNat(id)))
    ensures RefIdOf([IdAttr(id)] + NameAttr(name)) == Ok(Some(ShowNat(id)))
    ensures RefIdOf(NameAttr(name) + [IdAttr(id)]) == Ok(Some(ShowNat(id)))
  {
    hide Escape, Unescape, ShowNat;
    var raw := ShowNat(id);
    PlainText(raw);
    ReadAttr([IdAttr(id)], "RefId");
    ReadAttr([IdAttr(id)] + NameAttr(name), "RefId");
    if name.Some? {
      assert (NameAttr(name) + [IdAttr(id)])[1..] == [IdAttr(id)];
    } else {
      assert NameAttr(name) + [IdAttr(id)] == [IdAttr(id)];
    }
  }
}
