/** The OutOfProc packets of `src/out_of_proc/packet.rs`: one XML element per line. */
module Packets {
  import opened Common
  import opened Text
  import Base64
  import Lines

  const MAX_DATA_PAYLOAD: nat := 32768
  const SERVER_ERROR_PREFIX: string := "__NamedPipeError__:"

  datatype Stream = Default | PromptResponse

  function StreamName(s: Stream): string {
    match s case Default => "Default" case PromptResponse => "PromptResponse"
  }

  /** One packet; the GUID is `NIL` for the session, else a pipeline id. */
  datatype Packet =
    | Data(stream: Stream, guid: Guid, payload: seq<byte>)
    | DataAck(guid: Guid)
    | Command(guid: Guid)
    | CommandAck(guid: Guid)
    | Signal(guid: Guid)
    | SignalAck(guid: Guid)
    | Close(guid: Guid)
    | CloseAck(guid: Guid)

  predicate IsAck(p: Packet) {
    p.DataAck? || p.CommandAck? || p.SignalAck? || p.CloseAck?
  }

  function Name(p: Packet): (s: string)
    ensures 4 <= |s| <= 10
    ensures forall i :: 0 <= i < |s| ==> 'A' <= s[i] <= 'z'
  {
    match p
    case Data(_, _, _) => "Data"
    case DataAck(_) => "DataAck"
    case Command(_) => "Command"
    case CommandAck(_) => "CommandAck"
    case Signal(_) => "Signal"
    case SignalAck(_) => "SignalAck"
    case Close(_) => "Close"
    case CloseAck(_) => "CloseAck"
  }

  /** `to_line` without its final newline. */
  function LineText(p: Packet): string {
    if p.Data? then
      "<Data Stream='" + StreamName(p.stream) + "' PSGuid='" + ShowGuid(p.guid) + "'>"
      + Base64.Encode(p.payload) + "</Data>"
    else "<" + Name(p) + " PSGuid='" + ShowGuid(p.guid) + "' />"
  }

  function ToLine(p: Packet): string {
    LineText(p) + "\n"
  }

  // ---- Parsing ----

  /** One attribute of an element, or one the XML reader rejects. */
  datatype Attribute = Attr(name: string, value: string) | BadAttr

  /** What the XML reader finds in a line, in order; after the last comes the end of input. */
  datatype XmlEvent =
    | Start(name: string, attrs: seq<Attribute>)
    | Empty(name: string, attrs: seq<Attribute>)
    | EndTag(name: string)
    | Content(text: string)
    | Other
    | Bad

  /** The XML reader, which is a library. */
  type Tokenizer = string -> seq<XmlEvent>

  datatype Fault = ServerError(message: string) | Malformed

  function LowerAscii(s: string): string {
    seq(|s|, i requires 0 <= i < |s| => if 'A' <= s[i] <= 'Z' then (s[i] as int + 32) as char else s[i])
  }

  predicate EqIgnoreCase(a: string, b: string) {
    LowerAscii(a) == LowerAscii(b)
  }

  function ParseStream(s: string): Option<Stream> {
    if EqIgnoreCase("Default", s) then Some(Default)
    else if EqIgnoreCase("PromptResponse", s) then Some(PromptResponse)
    else None
  }

  /** `attributes`: the pairs, unless one is bad or there are more than `max`. */
  function Attributes(attrs: seq<Attribute>, max: nat): (r: Option<seq<(string, string)>>)
    ensures r.Some? ==> |r.value| == |attrs| <= max
  {
    if attrs == [] then Some([])
    else if attrs[0].BadAttr? || max == 0 then None
    else match Attributes(attrs[1..], max - 1)
         case None => None
         case Some(rest) => Some([(attrs[0].name, attrs[0].value)] + rest)
  }

  function GuidAttribute(attrs: seq<Attribute>): Option<Guid> {
    match Attributes(attrs, 1)
    case None => None
    case Some(pairs) => if |pairs| == 1 && pairs[0].0 == "PSGuid" then ParseGuid(pairs[0].1) else None
  }

  function DataAttributes(attrs: seq<Attribute>): Option<(Stream, Guid)> {
    match Attributes(attrs, 2)
    case None => None
    case Some(pairs) =>
      if |pairs| != 2 then None
      else
        var (stream, guid) :=
          if pairs[0].0 == "Stream" && pairs[1].0 == "PSGuid" then (ParseStream(pairs[0].1), ParseGuid(pairs[1].1))
          else if pairs[0].0 == "PSGuid" && pairs[1].0 == "Stream" then (ParseStream(pairs[1].1), ParseGuid(pairs[0].1))
          else (None, None);
        if stream.Some? && guid.Some? then Some((stream.value, guid.value)) else None
  }

  function MakeEmpty(name: string, guid: Guid): Option<Packet> {
    if name == "DataAck" then Some(DataAck(guid))
    else if name == "Command" then Some(Command(guid))
    else if name == "CommandAck" then Some(CommandAck(guid))
    else if name == "Signal" then Some(Signal(guid))
    else if name == "SignalAck" then Some(SignalAck(guid))
    else if name == "Close" then Some(Close(guid))
    else if name == "CloseAck" then Some(CloseAck(guid))
    else None
  }

  /** `parse_element`: exactly one packet element, nothing before or after it. */
  function ParseElement(events: seq<XmlEvent>): Option<Packet> {
    if events == [] then None
    else match events[0]
      case Start(name, attrs) =>
        if name != "Data" || |events| != 3 || !events[1].Content? || events[2] != EndTag("Data") then None
        else
          (match (DataAttributes(attrs), Base64.Decode(events[1].text))
           case (Some((stream, guid)), Some(payload)) =>
             if payload == [] then None else Some(Data(stream, guid, payload))
           case _ => None)
      case Empty(name, attrs) =>
        if |events| != 1 then None
        else (match GuidAttribute(attrs) case Some(guid) => MakeEmpty(name, guid) case None => None)
      case _ => None
  }

  /** `parse_line`: nothing for a blank line, an error for the server's last words or a bad line. */
  function ParseLine(tokenize: Tokenizer, line: string): Result<Option<Packet>, Fault> {
    if Trim(line) == "" then Ok(None)
    else if |line| >= |SERVER_ERROR_PREFIX| && EqIgnoreCase(line[..|SERVER_ERROR_PREFIX|], SERVER_ERROR_PREFIX) then
      Err(ServerError(line[|SERVER_ERROR_PREFIX|..]))
    else match ParseElement(tokenize(Trim(line)))
         case Some(p) => Ok(Some(p))
         case None => Err(Malformed)
  }

  // ---- The emitted grammar ----

  /** What an XML reader finds in an emitted line. */
  function Events(p: Packet): seq<XmlEvent> {
    if p.Data? then
      [Start("Data", [Attr("Stream", StreamName(p.stream)), Attr("PSGuid", ShowGuid(p.guid))]),
       Content(Base64.Encode(p.payload)), EndTag("Data")]
    else [Empty(Name(p), [Attr("PSGuid", ShowGuid(p.guid))])]
  }

  predicate Sendable(p: Packet) {
    p.Data? ==> p.payload != []
  }

  /** The reader reads what is emitted. Nothing is assumed about any other line. */
  ghost predicate Faithful(tokenize: Tokenizer) {
    forall p: Packet :: Sendable(p) ==> tokenize(LineText(p)) == Events(p)
  }

  // ---- The eight lines, letter by letter ----

  /** Each packet as PowerShell's own writer produces it. */
  lemma LinesAsWritten(p: Packet)
    ensures p.Data? && p.stream.Default? ==>
      LineText(p) == "<Data Stream='Default' PSGuid='" + ShowGuid(p.guid) + "'>" + Base64.Encode(p.payload) + "</Data>"
    ensures p.Data? && p.stream.PromptResponse? ==>
      LineText(p)
        == "<Data Stream='PromptResponse' PSGuid='" + ShowGuid(p.guid) + "'>" + Base64.Encode(p.payload) + "</Data>"
    ensures p.DataAck? ==> LineText(p) == "<DataAck PSGuid='" + ShowGuid(p.guid) + "' />"
    ensures p.Command? ==> LineText(p) == "<Command PSGuid='" + ShowGuid(p.guid) + "' />"
    ensures p.CommandAck? ==> LineText(p) == "<CommandAck PSGuid='" + ShowGuid(p.guid) + "' />"
    ensures p.Signal? ==> LineText(p) == "<Signal PSGuid='" + ShowGuid(p.guid) + "' />"
    ensures p.SignalAck? ==> LineText(p) == "<SignalAck PSGuid='" + ShowGuid(p.guid) + "' />"
    ensures p.Close? ==> LineText(p) == "<Close PSGuid='" + ShowGuid(p.guid) + "' />"
    ensures p.CloseAck? ==> LineText(p) == "<CloseAck PSGuid='" + ShowGuid(p.guid) + "' />"
  {
    hide ShowGuid, Base64.Encode;
    RequestOpenings();
    AckOpenings();
    DataOpenings();
  }

  lemma RequestOpenings()
    ensures "<" + "Command" + " PSGuid='" == "<Command PSGuid='"
    ensures "<" + "Signal" + " PSGuid='" == "<Signal PSGuid='"
    ensures "<" + "Close" + " PSGuid='" == "<Close PSGuid='"
  {
  }

  lemma AckOpenings()
    ensures "<" + "DataAck" + " PSGuid='" == "<DataAck PSGuid='"
    ensures "<" + "CommandAck" + " PSGuid='" == "<CommandAck PSGuid='"
    ensures "<" + "SignalAck" + " PSGuid='" == "<SignalAck PSGuid='"
    ensures "<" + "CloseAck" + " PSGuid='" == "<CloseAck PSGuid='"
  {
  }

  lemma DataOpenings()
    ensures "<Data Stream='" + "Default" + "' PSGuid='" == "<Data Stream='Default' PSGuid='"
    ensures "<Data Stream='" + "PromptResponse" + "' PSGuid='" == "<Data Stream='PromptResponse' PSGuid='"
  {
  }

  /** The lines a client writes, terminator included. */
  function CommandLine(g: Guid): string {
    "<Command PSGuid='" + ShowGuid(g) + "' />\n"
  }

  function SignalLine(g: Guid): string {
    "<Signal PSGuid='" + ShowGuid(g) + "' />\n"
  }

  function CloseLine(g: Guid): string {
    "<Close PSGuid='" + ShowGuid(g) + "' />\n"
  }

  function DataLine(g: Guid, payload: seq<byte>): string {
    "<Data Stream='Default' PSGuid='" + ShowGuid(g) + "'>" + Base64.Encode(payload) + "</Data>\n"
  }

  lemma RequestLines(g: Guid, payload: seq<byte>)
    ensures ToLine(Command(g)) == CommandLine(g) && ToLine(Signal(g)) == SignalLine(g) && ToLine(Close(g)) == CloseLine(g)
    ensures ToLine(Data(Stream.Default, g, payload)) == DataLine(g, payload)
  {
    hide ShowGuid, Base64.Encode, LineText;
    LinesAsWritten(Command(g));
    LinesAsWritten(Signal(g));
    LinesAsWritten(Close(g));
    LinesAsWritten(Data(Stream.Default, g, payload));
    EndOfLine();
  }

  lemma EndOfLine()
    ensures "' />" + "\n" == "' />\n" && "</Data>" + "\n" == "</Data>\n"
  {
  }

  /** The data lines of a payload, each of at most `MAX_DATA_PAYLOAD` bytes of it. */
  function DataLines(g: Guid, payload: seq<byte>): seq<byte>
    decreases |payload|
  {
    if payload == [] then []
    else
      var n := Min(MAX_DATA_PAYLOAD, |payload|);
      Utf8(DataLine(g, payload[..n])) + DataLines(g, payload[n..])
  }

  /** The name of the element a line opens with: what stands between `<` and the first blank. */
  function ElementName(line: string): string {
    if line != "" && line[0] == '<' then BeforeBlank(line[1..]) else ""
  }

  function BeforeBlank(s: string): string {
    if s == "" || s[0] == ' ' then "" else [s[0]] + BeforeBlank(s[1..])
  }

  lemma {:induction false} BlankAfter(name: string, rest: string)
    requires ' ' !in name
    ensures BeforeBlank(name + (" " + rest)) == name
  {
    if name == "" {
      assert "" + (" " + rest) == " " + rest;
    } else {
      assert (name + (" " + rest))[0] == name[0] && (name + (" " + rest))[1..] == name[1..] + (" " + rest);
      BlankAfter(name[1..], rest);
    }
  }

  lemma NamedBy(line: string, name: string, rest: string)
    requires line == "<" + (name + (" " + rest)) && ' ' !in name
    ensures ElementName(line) == name
  {
    BlankAfter(name, rest);
    assert line[1..] == name + (" " + rest);
  }

  /** The element of each packet. */
  lemma ElementNames(p: Packet)
    ensures ElementName(LineText(p)) ==
      match p
      case Data(_, _, _) => "Data"
      case DataAck(_) => "DataAck"
      case Command(_) => "Command"
      case CommandAck(_) => "CommandAck"
      case Signal(_) => "Signal"
      case SignalAck(_) => "SignalAck"
      case Close(_) => "Close"
      case CloseAck(_) => "CloseAck"
  {
    hide ShowGuid, Base64.Encode, ElementName;
    if p.Data? {
      var rest := DataRest(StreamName(p.stream), ShowGuid(p.guid), Base64.Encode(p.payload));
      NamedBy(LineText(p), "Data", rest);
    } else {
      EmptyRest(Name(p), ShowGuid(p.guid));
      NamedBy(LineText(p), Name(p), "PSGuid='" + ShowGuid(p.guid) + "' />");
    }
  }

  lemma EmptyRest(name: string, guid: string)
    ensures "<" + name + " PSGuid='" + guid + "' />" == "<" + (name + (" " + ("PSGuid='" + guid + "' />")))
  {
    assert " PSGuid='" == " " + "PSGuid='";
  }

  lemma DataRest(stream: string, guid: string, body: string) returns (rest: string)
    ensures "<Data Stream='" + stream + "' PSGuid='" + guid + "'>" + body + "</Data>" == "<" + ("Data" + (" " + rest))
  {
    rest := "Stream='" + (stream + "' PSGuid='" + guid + "'>" + body + "</Data>");
    assert "<Data Stream='" == "<" + ("Data" + (" " + "Stream='"));
    var more := stream + "' PSGuid='" + guid + "'>" + body + "</Data>";
    assert "<Data Stream='" + stream + "' PSGuid='" + guid + "'>" + body + "</Data>" == "<Data Stream='" + more;
  }

  lemma EmptyLineParts(p: Packet)
    requires !p.Data?
    ensures var s, n := LineText(p), |Name(p)|;
      && |s| == n + 50 && s[1..n + 1] == Name(p) && s[n + 10..n + 46] == ShowGuid(p.guid)
  {
    hide ShowGuid, Name;
    FiveParts("<", Name(p), " PSGuid='", ShowGuid(p.guid), "' />");
  }

  lemma FiveParts(a: string, b: string, c: string, d: string, e: string)
    ensures var s := a + b + c + d + e;
      && |s| == |a| + |b| + |c| + |d| + |e| && s[|a|..|a| + |b|] == b
      && s[|a| + |b| + |c|..|a| + |b| + |c| + |d|] == d
  {
    var x := a + b + c;
    assert a + b + c + d + e == x + (d + e);
    assert x[|a|..|a| + |b|] == b;
  }

  lemma DataLineParts(p: Packet)
    requires p.Data?
    ensures var s, n := LineText(p), |StreamName(p.stream)|;
      && |s| >= n + 69 && s[..6] == "<Data " && s[14] == StreamName(p.stream)[0]
      && s[n + 24..n + 60] == ShowGuid(p.guid) && s[n + 62..|s| - 7] == Base64.Encode(p.payload)
  {
    hide ShowGuid, StreamName, Base64.Encode;
    StreamNames(p.stream);
    var head := "<Data Stream='" + StreamName(p.stream) + "' PSGuid='" + ShowGuid(p.guid) + "'>";
    FiveParts("<Data Stream='", StreamName(p.stream), "' PSGuid='", ShowGuid(p.guid), "'>");
    Framed(head, Base64.Encode(p.payload), "</Data>");
    assert head[..6] == "<Data " && head[14] == StreamName(p.stream)[0];
  }

  lemma Framed(a: string, b: string, c: string)
    ensures var s := a + b + c;
      && |s| == |a| + |b| + |c| && s[..|a|] == a && s[|a|..|s| - |c|] == b
      && forall i, j :: 0 <= i <= j <= |a| ==> s[i..j] == a[i..j]
  {
  }

  lemma StreamNames(s: Stream)
    ensures StreamName(s) != "" && |StreamName(s)| == if s.Default? then 7 else 14
    ensures StreamName(s)[0] == if s.Default? then 'D' else 'P'
  {
  }

  lemma NamesDiffer(p: Packet, q: Packet)
    requires !p.Data? && !q.Data? && |Name(p)| == |Name(q)| && Name(p)[0] == Name(q)[0] && p.guid == q.guid
    ensures p == q
  {
  }

  lemma NoOtherIsData(p: Packet)
    requires !p.Data?
    ensures |Name(p)| >= 5 && Name(p)[..5] != "Data "
  {
    assert Name(p)[4] != ' ';
  }

  /** No two packets are written alike. */
  lemma LinesDiffer(p: Packet, q: Packet)
    requires LineText(p) == LineText(q)
    ensures p == q
  {
    hide LineText, Name, ShowGuid, Base64.Encode, StreamName;
    ParseShownGuid(p.guid);
    ParseShownGuid(q.guid);
    if p.Data? && q.Data? {
      DataLineParts(p);
      DataLineParts(q);
      StreamNames(p.stream);
      StreamNames(q.stream);
      Base64.RoundTrip(p.payload);
      Base64.RoundTrip(q.payload);
    } else if p.Data? {
      DataIsNoOther(p, q);
    } else if q.Data? {
      DataIsNoOther(q, p);
    } else {
      EmptyLineParts(p);
      EmptyLineParts(q);
      assert LineText(p)[1..|Name(p)| + 1][0] == LineText(p)[1] == LineText(q)[1..|Name(q)| + 1][0];
      NamesDiffer(p, q);
    }
  }

  lemma DataIsNoOther(p: Packet, q: Packet)
    requires p.Data? && !q.Data?
    ensures LineText(p) != LineText(q)
  {
    hide LineText, Name, ShowGuid, Base64.Encode;
    DataLineParts(p);
    EmptyLineParts(q);
    NoOtherIsData(q);
    assert LineText(p)[1..6] == LineText(p)[..6][1..6] == "<Data "[1..6] == "Data ";
    assert LineText(q)[1..6] == LineText(q)[1..|Name(q)| + 1][..5] == Name(q)[..5];
  }

  ghost function EmittedEvents(line: string): seq<XmlEvent> {
    if exists p: Packet :: LineText(p) == line then
      var p: Packet :| LineText(p) == line;
      Events(p)
    else []
  }

  /** A faithful reader exists: the assumption can be met. */
  lemma SomeReaderIsFaithful()
    ensures exists tokenize: Tokenizer :: Faithful(tokenize)
  {
    hide LineText, Events;
    var tokenize: Tokenizer := line => EmittedEvents(line);
    forall p: Packet | Sendable(p) ensures tokenize(LineText(p)) == Events(p) {
      var q: Packet :| LineText(q) == LineText(p) && EmittedEvents(LineText(p)) == Events(q);
      LinesDiffer(p, q);
    }
    assert Faithful(tokenize);
  }

  predicate Printable(s: string) {
    forall i :: 0 <= i < |s| ==> 0x20 <= s[i] as int < 0x7F
  }

  /** A printable ASCII text between angle brackets: nothing to trim, no terminator inside. */
  predicate Bracketed(s: string) {
    |s| >= 2 && s[0] == '<' && s[|s| - 1] == '>' && Printable(s)
  }

  lemma PrintableAppend(a: string, b: string)
    requires Printable(a) && Printable(b)
    ensures Printable(a + b)
  {
  }

  lemma LineTextShape(p: Packet)
    ensures Bracketed(LineText(p))
    ensures |LineText(p)| <= 100 + (if p.Data? then (|p.payload| + 2) / 3 * 4 else 0)
  {
    ShownGuidIsPrintable(p.guid);
    if p.Data? {
      Base64.EncodeShape(p.payload);
      hide Base64.Encode, ShowGuid, Printable;
      DataLineShape(StreamName(p.stream), ShowGuid(p.guid), Base64.Encode(p.payload));
    } else {
      assert Printable(Name(p));
      hide ShowGuid, Name, Printable;
      EmptyLineShape(Name(p), ShowGuid(p.guid));
    }
  }

  lemma DataLineShape(stream: string, guid: string, body: string)
    requires stream == "Default" || stream == "PromptResponse"
    requires Printable(guid) && |guid| == 36
    requires Printable(body)
    ensures var s := "<Data Stream='" + stream + "' PSGuid='" + guid + "'>" + body + "</Data>";
      Bracketed(s) && |s| <= 100 + |body|
  {
    assert Printable("<Data Stream='") && Printable("' PSGuid='") && Printable("'>") && Printable("</Data>")
        && Printable(stream);
    hide Printable;
    PrintableAppend("<Data Stream='", stream);
    PrintableAppend("<Data Stream='" + stream, "' PSGuid='");
    PrintableAppend("<Data Stream='" + stream + "' PSGuid='", guid);
    PrintableAppend("<Data Stream='" + stream + "' PSGuid='" + guid, "'>");
    PrintableAppend("<Data Stream='" + stream + "' PSGuid='" + guid + "'>", body);
    PrintableAppend("<Data Stream='" + stream + "' PSGuid='" + guid + "'>" + body, "</Data>");
  }

  lemma EmptyLineShape(name: string, guid: string)
    requires Printable(name) && |name| <= 10 && Printable(guid) && |guid| == 36
    ensures var s := "<" + name + " PSGuid='" + guid + "' />"; Bracketed(s) && |s| <= 100
  {
    assert Printable("<") && Printable(" PSGuid='") && Printable("' />");
    hide Printable;
    PrintableAppend("<", name);
    PrintableAppend("<" + name, " PSGuid='");
    PrintableAppend("<" + name + " PSGuid='", guid);
    PrintableAppend("<" + name + " PSGuid='" + guid, "' />");
  }

  lemma ShownGuidIsPrintable(g: Guid)
    ensures Printable(ShowGuid(g))
  {
    hide Hex;
  }

  lemma BracketedIsPlain(s: string)
    requires Bracketed(s)
    ensures Trim(s) == s
    ensures |s| >= |SERVER_ERROR_PREFIX| ==> !EqIgnoreCase(s[..|SERVER_ERROR_PREFIX|], SERVER_ERROR_PREFIX)
  {
    TrimIdentity(s);
    if |s| >= |SERVER_ERROR_PREFIX| {
      assert LowerAscii(s[..|SERVER_ERROR_PREFIX|])[0] == '<';
      assert LowerAscii(SERVER_ERROR_PREFIX)[0] == '_';
    }
  }

  lemma OneAttribute(name: string, value: string)
    ensures Attributes([Attr(name, value)], 1) == Some([(name, value)])
  {
    assert [Attr(name, value)][1..] == [];
    assert [(name, value)] + [] == [(name, value)];
  }

  lemma TwoAttributes(a: string, x: string, b: string, y: string)
    ensures Attributes([Attr(a, x), Attr(b, y)], 2) == Some([(a, x), (b, y)])
  {
    OneAttribute(b, y);
    assert [Attr(a, x), Attr(b, y)][1..] == [Attr(b, y)];
    assert [(a, x)] + [(b, y)] == [(a, x), (b, y)];
  }

  lemma StreamRoundTrip(s: Stream)
    ensures ParseStream(StreamName(s)) == Some(s)
  {
    assert |LowerAscii("Default")| != |LowerAscii("PromptResponse")|;
  }

  /** What is taken for a packet: one element under its name, with its attributes and nothing besides. */
  lemma PacketsTaken(events: seq<XmlEvent>)
    ensures ParseElement(events).Some? && !ParseElement(events).value.Data? ==>
      var p := ParseElement(events).value;
      && |events| == 1 && events[0].Empty? && events[0].name == Name(p) && |events[0].attrs| == 1
      && events[0].attrs[0].Attr? && events[0].attrs[0].name == "PSGuid"
      && ParseGuid(events[0].attrs[0].value) == Some(p.guid)
    ensures ParseElement(events).Some? && ParseElement(events).value.Data? ==>
      var p := ParseElement(events).value;
      && |events| == 3 && events[0].Start? && events[0].name == "Data" && events[1].Content? && events[2] == EndTag("Data")
      && Base64.Decode(events[1].text) == Some(p.payload) && p.payload != []
      && HasAttribute(events[0].attrs, "Stream") && HasAttribute(events[0].attrs, "PSGuid") && |events[0].attrs| == 2
  {
    hide ParseGuid, Base64.Decode, ParseStream;
    if events != [] && (events[0].Start? || events[0].Empty?) {
      AttributesAt(events[0].attrs, 2);
      AttributesAt(events[0].attrs, 1);
    }
  }

  predicate HasAttribute(attrs: seq<Attribute>, name: string) {
    exists i :: 0 <= i < |attrs| && attrs[i].Attr? && attrs[i].name == name
  }

  lemma {:induction false} AttributesAt(attrs: seq<Attribute>, max: nat)
    ensures Attributes(attrs, max).Some? ==>
      forall i :: 0 <= i < |attrs| ==>
        attrs[i].Attr? && Attributes(attrs, max).value[i] == (attrs[i].name, attrs[i].value)
  {
    if attrs != [] && max > 0 {
      AttributesAt(attrs[1..], max - 1);
    }
  }

  /** The attributes of `Data` come in either order, and the name of the stream in any case. */
  lemma DataSpellings(g: Guid, payload: seq<byte>)
    requires payload != []
    ensures var stream, id := Attr("Stream", "DEFAULT"), Attr("PSGuid", ShowGuid(g));
      && ParseElement([Start("Data", [stream, id]), Content(Base64.Encode(payload)), EndTag("Data")])
           == Some(Data(Stream.Default, g, payload))
      && ParseElement([Start("Data", [id, stream]), Content(Base64.Encode(payload)), EndTag("Data")])
           == Some(Data(Stream.Default, g, payload))
    ensures ParseStream("promptresponse") == Some(PromptResponse)
  {
    hide ShowGuid, ParseGuid, Base64.Encode, Base64.Decode, Attributes;
    ParseShownGuid(g);
    Base64.RoundTrip(payload);
    TwoAttributes("Stream", "DEFAULT", "PSGuid", ShowGuid(g));
    TwoAttributes("PSGuid", ShowGuid(g), "Stream", "DEFAULT");
    StreamCases();
    assert |"Stream"| == 6 && "Stream"[0] != "PSGuid"[0];
  }

  lemma StreamCases()
    ensures ParseStream("DEFAULT") == Some(Stream.Default) && ParseStream("promptresponse") == Some(PromptResponse)
  {
    assert LowerAscii("Default") == LowerAscii("DEFAULT");
    assert LowerAscii("PromptResponse") == LowerAscii("promptresponse");
    assert |LowerAscii("Default")| != |LowerAscii("promptresponse")|;
  }

  lemma ParseEvents(p: Packet)
    requires Sendable(p)
    ensures ParseElement(Events(p)) == Some(p)
  {
    hide ShowGuid, ParseGuid, Base64.Encode, Base64.Decode, Attributes, ParseStream, StreamName;
    ParseShownGuid(p.guid);
    if p.Data? {
      Base64.RoundTrip(p.payload);
      StreamRoundTrip(p.stream);
      TwoAttributes("Stream", StreamName(p.stream), "PSGuid", ShowGuid(p.guid));
    } else {
      OneAttribute("PSGuid", ShowGuid(p.guid));
    }
  }

  /** Every packet parses back from the line it is written as. */
  lemma LineRoundTrip(tokenize: Tokenizer, p: Packet)
    requires Faithful(tokenize) && Sendable(p)
    ensures ParseLine(tokenize, LineText(p)) == Ok(Some(p))
  {
    hide LineText, Bracketed, EqIgnoreCase, ParseElement, Events;
    LineTextShape(p);
    BracketedIsPlain(LineText(p));
    NonBlank(LineText(p));
    ParseEvents(p);
  }

  lemma NonBlank(s: string)
    requires Bracketed(s)
    ensures s != ""
  {
  }

  // ---- On the wire ----

  /** What the client writes for `p`. */
  function ClientBytes(p: Packet): seq<byte> {
    Utf8(ToLine(p))
  }

  /** The server's line, newline excluded: it ends its lines with CRLF. */
  function ServerRecord(p: Packet): seq<byte> {
    Utf8(LineText(p)) + [Lines.CR]
  }

  function ServerRecords(ps: seq<Packet>): (r: seq<seq<byte>>)
    ensures |r| == |ps|
  {
    seq(|ps|, i requires 0 <= i < |ps| => ServerRecord(ps[i]))
  }

  function Texts(ps: seq<Packet>): (r: seq<string>)
    ensures |r| == |ps|
  {
    seq(|ps|, i requires 0 <= i < |ps| => LineText(ps[i]))
  }

  /** Fits in one line of the server, its carriage return included. */
  predicate FitsLine(p: Packet) {
    (p.Data? ==> p.payload != []) && |LineText(p)| < Lines.MAX_LINE_BYTES
  }

  /** A server line a session takes: data, or an acknowledgement. */
  predicate Welcome(p: Packet) {
    FitsLine(p) && (p.Data? || IsAck(p))
  }

  lemma AckIsWelcome(p: Packet)
    requires IsAck(p)
    ensures Welcome(p)
  {
    hide LineText;
    LineTextShape(p);
  }

  lemma BracketedBytes(s: string)
    requires Bracketed(s)
    ensures |Utf8(s)| == |s| && forall i :: 0 <= i < |s| ==> 0x20 <= Utf8(s)[i] < 0x7F
  {
    Utf8OfAscii(s);
  }

  lemma ServerRecordSpells(p: Packet)
    requires FitsLine(p)
    ensures Lines.Spells(ServerRecord(p), LineText(p))
  {
    hide LineText, Utf8, FromUtf8;
    var s := LineText(p);
    LineTextShape(p);
    BracketedBytes(s);
    FromUtf8OfUtf8(s);
    assert ServerRecord(p)[..|Utf8(s)|] == Utf8(s);
  }

  lemma ServerRecordsSpell(ps: seq<Packet>)
    requires forall p :: p in ps ==> FitsLine(p)
    ensures Lines.AllSpell(ServerRecords(ps), Texts(ps))
  {
    hide Lines.Spells, ServerRecord, LineText, FitsLine;
    forall i | 0 <= i < |ps| ensures Lines.Spells(ServerRecords(ps)[i], Texts(ps)[i]) {
      ServerRecordSpells(ps[i]);
    }
  }

  lemma ClientBytesShape(p: Packet)
    ensures |ClientBytes(p)| > 0 && ClientBytes(p)[|ClientBytes(p)| - 1] == Lines.NEWLINE
    ensures Lines.NEWLINE !in ClientBytes(p)[..|ClientBytes(p)| - 1]
    ensures ClientBytes(p)[..|ClientBytes(p)| - 1] == Utf8(LineText(p))
  {
    hide LineText, Utf8;
    LineTextShape(p);
    BracketedBytes(LineText(p));
    Utf8Append(LineText(p), "\n");
    Utf8OfAscii("\n");
    assert Utf8("\n") == [Lines.NEWLINE];
  }
}
