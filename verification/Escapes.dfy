/** The two escaping layers of CLIXML text: PowerShell's `_xHHHH_` under XML's entities. */
module Escapes {
  import opened Common
  import opened Text

  // ---- UTF-16 ----

  predicate IsHigh(u: nat) { 0xD800 <= u < 0xDC00 }

  predicate IsLow(u: nat) { 0xDC00 <= u < 0xE000 }

  /** `str::encode_utf16`. */
  function Utf16(s: string): (units: seq<nat>)
    ensures forall i :: 0 <= i < |units| ==> units[i] < 0x1_0000
  {
    if s == "" then []
    else
      var n := s[0] as int;
      (if n < 0x1_0000 then [n] else [0xD800 + (n - 0x1_0000) / 0x400, 0xDC00 + (n - 0x1_0000) % 0x400])
      + Utf16(s[1..])
  }

  /** `char::decode_utf16` with U+FFFD for a surrogate without its other half. */
  function Utf16Lossy(units: seq<nat>): string
    requires forall i :: 0 <= i < |units| ==> units[i] < 0x1_0000
  {
    if units == [] then ""
    else if IsHigh(units[0]) && |units| > 1 && IsLow(units[1]) then
      [(0x1_0000 + (units[0] - 0xD800) * 0x400 + (units[1] - 0xDC00)) as char] + Utf16Lossy(units[2..])
    else if IsHigh(units[0]) || IsLow(units[0]) then ['\U{FFFD}'] + Utf16Lossy(units[1..])
    else [units[0] as char] + Utf16Lossy(units[1..])
  }

  lemma {:induction false} Utf16RoundTrip(s: string)
    ensures Utf16Lossy(Utf16(s)) == s
  {
    if s != "" {
      Utf16RoundTrip(s[1..]);
      var n := s[0] as int;
      var u := Utf16(s);
      if n < 0x1_0000 {
        assert u[1..] == Utf16(s[1..]);
      } else {
        assert u[2..] == Utf16(s[1..]);
        assert (n - 0x1_0000) / 0x400 * 0x400 + (n - 0x1_0000) % 0x400 == n - 0x1_0000;
      }
      assert s == [s[0]] + s[1..];
    }
  }

  // ---- PowerShell escapes ----

  function UpperHex(n: nat): char
    requires n < 16
  {
    if n < 10 then '0' + n as char else 'A' + (n - 10) as char
  }

  /** `_x{:04X}_`. */
  function PwshEscape(unit: nat): (s: string)
    requires unit < 0x1_0000
    ensures |s| == 7
  {
    ['_', 'x', UpperHex(unit / 4096), UpperHex(unit / 256 % 16), UpperHex(unit / 16 % 16), UpperHex(unit % 16), '_']
  }

  /** `u16::from_str_radix` on four characters: hex digits of either case, or `+` and three. */
  function FourHex(a: char, b: char, c: char, d: char): Option<nat> {
    match (if a == '+' then Some(0) else HexValue(a), HexValue(b), HexValue(c), HexValue(d))
    case (Some(w), Some(x), Some(y), Some(z)) => Some(4096 * w + 256 * x + 16 * y + z)
    case _ => None
  }

  lemma FourHexBound(a: char, b: char, c: char, d: char)
    ensures FourHex(a, b, c, d).Some? ==> FourHex(a, b, c, d).value < 0x1_0000
  {
  }

  /** `split_pwsh_escape`: the unit of the escape that opens `s`. */
  function OpeningEscape(s: string): (r: Option<nat>)
    ensures r.Some? ==> |s| >= 7 && r.value < 0x1_0000
  {
    if |s| >= 7 && s[0] == '_' && s[1] == 'x' && s[6] == '_' then
      FourHexBound(s[2], s[3], s[4], s[5]);
      FourHex(s[2], s[3], s[4], s[5])
    else None
  }

  /** `decode_pwsh_escapes`: runs of escapes are UTF-16, everything else is itself. */
  function DecodeFrom(s: string, units: seq<nat>): string
    requires forall i :: 0 <= i < |units| ==> units[i] < 0x1_0000
    decreases |s|
  {
    var e := OpeningEscape(s);
    if e.Some? then DecodeFrom(s[7..], units + [e.value])
    else Utf16Lossy(units) + (if s == "" then "" else [s[0]] + DecodeFrom(s[1..], []))
  }

  function Decode(s: string): string {
    DecodeFrom(s, [])
  }

  lemma {:induction false} CopyPlain(text: string, rest: string)
    requires '_' !in text
    ensures DecodeFrom(text + rest, []) == text + DecodeFrom(rest, [])
    decreases |text|
  {
    if text == "" {
      assert text + rest == rest;
    } else {
      assert (text + rest)[1..] == text[1..] + rest;
      assert (text + rest)[0] in text;
      CopyPlain(text[1..], rest);
      assert Utf16Lossy([]) == "";
    }
  }

  /** Where the next `_` is, or the end. */
  function NextUnderscore(s: string): (i: nat)
    ensures i <= |s| && '_' !in s[..i] && (i < |s| ==> s[i] == '_')
  {
    if s == "" || s[0] == '_' then 0
    else
      var i := NextUnderscore(s[1..]);
      assert s[..i + 1] == [s[0]] + s[1..][..i];
      i + 1
  }

  lemma CutAfter(rest: string, i: nat)
    requires i < |rest|
    ensures rest[1..] == rest[1..][..i] + rest[i + 1..] && rest[..i + 1] == [rest[0]] + rest[1..][..i]
    ensures rest[1..][i..] == rest[i + 1..]
  {
  }

  lemma DecodeStep(rest: string, units: seq<nat>)
    requires forall i :: 0 <= i < |units| ==> units[i] < 0x1_0000
    requires OpeningEscape(rest).None?
    ensures rest == "" ==> DecodeFrom(rest, units) == Utf16Lossy(units) + ""
    ensures rest != "" ==> DecodeFrom(rest, units) == Utf16Lossy(units) + ([rest[0]] + DecodeFrom(rest[1..], []))
  {
    hide OpeningEscape, Utf16Lossy;
  }

  /** One turn of the loop: the run so far, one character, and the text up to the next `_`. */
  lemma DecodeTurn(rest: string, units: seq<nat>)
    requires forall i :: 0 <= i < |units| ==> units[i] < 0x1_0000
    requires OpeningEscape(rest).None?
    ensures rest == "" ==> DecodeFrom(rest, units) == Utf16Lossy(units)
    ensures rest != "" ==>
      var i := NextUnderscore(rest[1..]);
      DecodeFrom(rest, units) == Utf16Lossy(units) + (rest[..i + 1] + DecodeFrom(rest[i + 1..], []))
  {
    hide OpeningEscape, Utf16Lossy, NextUnderscore, DecodeFrom;
    DecodeStep(rest, units);
    if rest == "" {
      assert Utf16Lossy(units) + "" == Utf16Lossy(units);
    } else {
      var i := NextUnderscore(rest[1..]);
      CutAfter(rest, i);
      CopyPlain(rest[1..][..i], rest[i + 1..]);
      Regroup([rest[0]], rest[1..][..i], DecodeFrom(rest[i + 1..], []));
    }
  }

  /** The loop of `decode_pwsh_escapes`, which copies up to the next `_` at a time. */
  method DecodeLoop(s: string) returns (out: string)
    ensures out == Decode(s)
  {
    hide OpeningEscape, Utf16Lossy;
    out := "";
    var units: seq<nat> := [];
    var rest := s;
    while true
      invariant forall i :: 0 <= i < |units| ==> units[i] < 0x1_0000
      invariant out + DecodeFrom(rest, units) == Decode(s)
      decreases |rest|
    {
      var e := OpeningEscape(rest);
      if e.Some? {
        units := units + [e.value];
        rest := rest[7..];
        continue;
      }
      DecodeTurn(rest, units);
      out := out + Utf16Lossy(units);
      units := [];
      if rest == "" {
        return;
      }
      var i := NextUnderscore(rest[1..]);
      out := out + rest[..i + 1];
      rest := rest[i + 1..];
    }
  }

  // ---- What the encoder does ----

  predicate NextIsX(s: string) {
    |s| > 1 && (s[1] == 'x' || s[1] == 'X')
  }

  /** Whether the first character of `s` goes out as a PowerShell escape. */
  predicate NeedsEscape(s: string, attribute: bool)
    requires s != ""
  {
    || (s[0] == '_' && NextIsX(s))
    || (s[0] as int < 0x20 && (attribute || (s[0] != '\t' && s[0] != '\n')))
  }

  function XmlEntity(c: char): Option<string> {
    match c
    case '<' => Some("lt")
    case '>' => Some("gt")
    case '&' => Some("amp")
    case '"' => Some("quot")
    case '\'' => Some("apos")
    case _ => None
  }

  /** What `escape_inner` writes for the first character of `s`. */
  function EscapeFirst(s: string, attribute: bool): string
    requires s != ""
  {
    if XmlEntity(s[0]).Some? then "&" + XmlEntity(s[0]).value + ";"
    else if NeedsEscape(s, attribute) then PwshEscape(s[0] as int)
    else [s[0]]
  }

  /** `escape` and `escape_attr`. */
  function Escape(s: string, attribute: bool): string {
    if s == "" then "" else EscapeFirst(s, attribute) + Escape(s[1..], attribute)
  }

  lemma FirstPiece(s: string, i: nat, attribute: bool)
    requires i < |s|
    ensures var c := s[i]; var x := i + 1 < |s| && (s[i + 1] == 'x' || s[i + 1] == 'X');
      EscapeFirst(s[i..], attribute) ==
        if XmlEntity(c).Some? then "&" + XmlEntity(c).value + ";"
        else if c == '_' && x then PwshEscape(0x5F)
        else if c as int < 0x20 && (attribute || (c != '\t' && c != '\n')) then PwshEscape(c as int)
        else [c]
    ensures Escape(s[i..], attribute) == EscapeFirst(s[i..], attribute) + Escape(s[i + 1..], attribute)
  {
    assert s[i..][1..] == s[i + 1..];
  }

  /** The loop of `escape_inner`. */
  method EscapeLoop(s: string, attribute: bool) returns (out: string)
    ensures out == Escape(s, attribute)
  {
    hide PwshEscape, XmlEntity, EscapeFirst, Escape;
    out := "";
    for i := 0 to |s|
      invariant out + Escape(s[i..], attribute) == Escape(s, attribute)
    {
      var c := s[i];
      FirstPiece(s, i, attribute);
      var peek := if i + 1 < |s| then Some(s[i + 1]) else None;
      var entity := XmlEntity(c);
      var piece :=
        if entity.Some? then "&" + entity.value + ";"
        else if c == '_' && (peek == Some('x') || peek == Some('X')) then PwshEscape(0x5F)
        else if (c == '\t' || c == '\n') && attribute then PwshEscape(c as int)
        else if c as int < 0x20 && c != '\t' && c != '\n' then PwshEscape(c as int)
        else [c];
      assert (out + piece) + Escape(s[i + 1..], attribute) == out + (piece + Escape(s[i + 1..], attribute));
      out := out + piece;
    }
    EscapeNothing(attribute);
    assert s[|s|..] == "" && out + "" == out;
  }

  lemma EscapeNothing(attribute: bool)
    ensures Escape("", attribute) == ""
  {
  }

  // ---- XML unescaping ----

  function Predefined(name: string): Option<char> {
    if name == "lt" then Some('<')
    else if name == "gt" then Some('>')
    else if name == "amp" then Some('&')
    else if name == "quot" then Some('"')
    else if name == "apos" then Some('\'')
    else None
  }

  /** A numeric character reference, its leading `#` included. */
  function CharReference(name: string): Option<char>
    requires name != "" && name[0] == '#'
  {
    var n :=
      if |name| > 1 && name[1] == 'x' then HexNumber(name[2..])
      else ParseDigits(name[1..]);
    if n.Some? && n.value != 0 && IsScalar(n.value) then Some(n.value as char) else None
  }

  function HexNumber(s: string): Option<nat> {
    if s == "" then None
    else match HexValue(s[|s| - 1])
         case None => None
         case Some(d) =>
           if |s| == 1 then Some(d)
           else (match HexNumber(s[..|s| - 1]) case Some(n) => Some(16 * n + d) case None => None)
  }

  /** What the reference `&name;` stands for. */
  function Resolve(name: string): Option<char> {
    if name != "" && name[0] == '#' then CharReference(name) else Predefined(name)
  }

  function Semicolon(s: string): (i: nat)
    ensures i <= |s| && (i < |s| ==> s[i] == ';')
  {
    if s == "" || s[0] == ';' then 0 else 1 + Semicolon(s[1..])
  }

  function Joined(first: Option<string>, rest: Option<string>): Option<string> {
    if first.Some? && rest.Some? then Some(first.value + rest.value) else None
  }

  function Resolved(name: string): Option<string> {
    match Resolve(name) case Some(c) => Some([c]) case None => None
  }

  /** References resolved; `None` for one that is unknown or not closed. */
  function Unescape(s: string): Option<string>
    decreases |s|
  {
    if s == "" then Some("")
    else if s[0] == '&' then
      var k := Semicolon(s[1..]);
      if k == |s| - 1 then None
      else Joined(Resolved(s[1..k + 1]), Unescape(s[k + 2..]))
    else Joined(Some([s[0]]), Unescape(s[1..]))
  }

  // ---- Round trip ----

  /** The text between the two layers: `s` with its PowerShell escapes only. */
  function Pwsh(s: string, attribute: bool): string {
    if s == "" then ""
    else (if NeedsEscape(s, attribute) then PwshEscape(s[0] as int) else [s[0]]) + Pwsh(s[1..], attribute)
  }

  lemma {:induction false} UnescapePlain(text: string, rest: string)
    requires '&' !in text
    ensures Unescape(text + rest) == Joined(Some(text), Unescape(rest))
  {
    if text == "" {
      assert text + rest == rest;
      if Unescape(rest).Some? { assert text + Unescape(rest).value == Unescape(rest).value; }
    } else {
      assert (text + rest)[1..] == text[1..] + rest;
      assert (text + rest)[0] in text;
      UnescapePlain(text[1..], rest);
      if Unescape(rest).Some? {
        assert [text[0]] + (text[1..] + Unescape(rest).value) == text + Unescape(rest).value;
      }
    }
  }

  lemma SemicolonAfter(name: string, rest: string)
    requires ';' !in name
    ensures Semicolon(name + ";" + rest) == |name|
  {
    if name != "" {
      assert (name + ";" + rest)[1..] == name[1..] + ";" + rest;
      assert (name + ";" + rest)[0] in name;
      SemicolonAfter(name[1..], rest);
    }
  }

  lemma UnescapeEntity(c: char, rest: string)
    requires XmlEntity(c).Some?
    ensures Unescape("&" + XmlEntity(c).value + ";" + rest)
         == Joined(Some([c]), Unescape(rest))
  {
    var name := XmlEntity(c).value;
    var s := "&" + name + ";" + rest;
    SemicolonAfter(name, rest);
    assert Resolve(name) == Some(c);
    hide XmlEntity, Resolve, Semicolon;
    assert s[1..] == name + ";" + rest;
    assert s[1..|name| + 1] == name;
    assert s[|name| + 2..] == rest;
  }

  lemma OnlyAmpersand(c: char)
    ensures XmlEntity(c).None? ==> '&' !in [c]
    ensures XmlEntity(c).Some? ==> forall s: string, attribute: bool ::
      s != "" && s[0] == c ==> !NeedsEscape(s, attribute)
  {
  }

  lemma PwshEscapeIsPlain(unit: nat)
    requires unit < 0x1_0000
    ensures '&' !in PwshEscape(unit)
  {
  }

  /** XML unescaping takes the XML layer off, whatever the text. */
  lemma {:induction false} UnescapeEscape(s: string, attribute: bool)
    ensures Unescape(Escape(s, attribute)) == Some(Pwsh(s, attribute))
  {
    if s != "" {
      hide PwshEscape, Unescape, XmlEntity;
      var rest := Escape(s[1..], attribute);
      UnescapeEscape(s[1..], attribute);
      if XmlEntity(s[0]).Some? {
        OnlyAmpersand(s[0]);
        UnescapeEntity(s[0], rest);
      } else if NeedsEscape(s, attribute) {
        PwshEscapeIsPlain(s[0] as int);
        UnescapePlain(PwshEscape(s[0] as int), rest);
      } else {
        OnlyAmpersand(s[0]);
        UnescapePlain([s[0]], rest);
      }
    } else {
      assert Unescape("") == Some("");
    }
  }

  lemma HexValueOfUpper(n: nat)
    requires n < 16
    ensures HexValue(UpperHex(n)) == Some(n) && UpperHex(n) != '+'
  {
  }

  lemma FourUpperHex(a: nat, b: nat, c: nat, d: nat)
    requires a < 16 && b < 16 && c < 16 && d < 16
    ensures FourHex(UpperHex(a), UpperHex(b), UpperHex(c), UpperHex(d)) == Some(4096 * a + 256 * b + 16 * c + d)
  {
    hide UpperHex, HexValue;
    HexValueOfUpper(a);
    HexValueOfUpper(b);
    HexValueOfUpper(c);
    HexValueOfUpper(d);
  }

  lemma HexDigits(unit: nat)
    ensures unit == 4096 * (unit / 4096) + 256 * (unit / 256 % 16) + 16 * (unit / 16 % 16) + unit % 16
  {
    assert unit / 256 == unit / 16 / 16 && unit / 4096 == unit / 256 / 16;
  }

  lemma EscapeOpens(unit: nat, rest: string)
    requires unit < 0x1_0000
    ensures OpeningEscape(PwshEscape(unit) + rest) == Some(unit)
    ensures (PwshEscape(unit) + rest)[7..] == rest
  {
    FourUpperHex(unit / 4096, unit / 256 % 16, unit / 16 % 16, unit % 16);
    HexDigits(unit);
    hide UpperHex, FourHex;
    var s := PwshEscape(unit) + rest;
    assert s[..7] == PwshEscape(unit);
    assert s[0] == '_' && s[1] == 'x' && s[6] == '_';
    assert s[2] == UpperHex(unit / 4096) && s[3] == UpperHex(unit / 256 % 16)
        && s[4] == UpperHex(unit / 16 % 16) && s[5] == UpperHex(unit % 16);
  }

  /** A character left alone opens no escape: a lone `_` is never followed by `x`. */
  lemma PlainOpensNothing(s: string, attribute: bool)
    requires s != "" && !NeedsEscape(s, attribute)
    ensures OpeningEscape(Pwsh(s, attribute)) == None
    ensures Pwsh(s, attribute)[0] == s[0] && Pwsh(s, attribute)[1..] == Pwsh(s[1..], attribute)
  {
    hide UpperHex;
    var p := Pwsh(s, attribute);
    assert p == [s[0]] + Pwsh(s[1..], attribute);
    if |s| > 1 {
      assert Pwsh(s[1..], attribute)[0] == if NeedsEscape(s[1..], attribute) then '_' else s[1];
    }
  }

  predicate NoSurrogate(units: seq<nat>) {
    forall i :: 0 <= i < |units| ==> units[i] < 0x1_0000 && !IsHigh(units[i]) && !IsLow(units[i])
  }

  lemma {:induction false} LossyAppend(units: seq<nat>, u: nat)
    requires NoSurrogate(units) && u < 0x1_0000 && !IsHigh(u) && !IsLow(u)
    ensures NoSurrogate(units + [u]) && Utf16Lossy(units + [u]) == Utf16Lossy(units) + [u as char]
  {
    if units != [] {
      assert (units + [u])[1..] == units[1..] + [u];
      assert (units + [u])[0] == units[0];
      LossyAppend(units[1..], u);
    } else {
      assert units + [u] == [u] && [u][1..] == [];
    }
  }

  lemma {:induction false} DecodePwsh(s: string, attribute: bool, units: seq<nat>)
    requires NoSurrogate(units)
    ensures DecodeFrom(Pwsh(s, attribute), units) == Utf16Lossy(units) + s
    decreases |s|
  {
    hide PwshEscape, OpeningEscape, Utf16Lossy;
    if s == "" {
      NothingOpens();
      assert Utf16Lossy(units) + "" == Utf16Lossy(units);
    } else if NeedsEscape(s, attribute) {
      var u := s[0] as int;
      EscapeOpens(u, Pwsh(s[1..], attribute));
      LossyAppend(units, u);
      DecodePwsh(s[1..], attribute, units + [u]);
      assert Utf16Lossy(units) + [s[0]] + s[1..] == Utf16Lossy(units) + s;
    } else {
      PlainOpensNothing(s, attribute);
      DecodePwsh(s[1..], attribute, []);
      LossyNothing();
      assert [s[0]] + s[1..] == s;
    }
  }

  lemma NothingOpens()
    ensures OpeningEscape("") == None
  {
  }

  lemma LossyNothing()
    ensures Utf16Lossy([]) == ""
  {
  }

  /** Decoding inverts escaping, on every string, in text and in attributes. */
  lemma EscapeRoundTrip(s: string, attribute: bool)
    ensures Unescape(Escape(s, attribute)).Some?
    ensures Decode(Unescape(Escape(s, attribute)).value) == s
  {
    UnescapeEscape(s, attribute);
    DecodePwsh(s, attribute, []);
    LossyNothing();
  }

  function EscapeUnits(units: seq<nat>): string
    requires forall i :: 0 <= i < |units| ==> units[i] < 0x1_0000
  {
    if units == [] then "" else PwshEscape(units[0]) + EscapeUnits(units[1..])
  }

  lemma {:induction false} DecodeUnits(done: seq<nat>, units: seq<nat>)
    requires forall i :: 0 <= i < |done| ==> done[i] < 0x1_0000
    requires forall i :: 0 <= i < |units| ==> units[i] < 0x1_0000
    ensures forall i :: 0 <= i < |done + units| ==> (done + units)[i] < 0x1_0000
    ensures DecodeFrom(EscapeUnits(units), done) == Utf16Lossy(done + units)
    decreases |units|
  {
    hide PwshEscape, OpeningEscape, Utf16Lossy;
    if units == [] {
      NothingOpens();
      assert done + units == done;
      assert Utf16Lossy(done) + "" == Utf16Lossy(done);
    } else {
      EscapeOpens(units[0], EscapeUnits(units[1..]));
      DecodeUnits(done + [units[0]], units[1..]);
      assert done + [units[0]] + units[1..] == done + units;
    }
  }

  /** A run of escapes is read as UTF-16: any string, surrogate pairs included, comes back. */
  lemma SurrogatePairsRoundTrip(s: string)
    ensures Decode(EscapeUnits(Utf16(s))) == s
  {
    DecodeUnits([], Utf16(s));
    assert [] + Utf16(s) == Utf16(s);
    Utf16RoundTrip(s);
  }
}
