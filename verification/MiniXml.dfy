/** The event-driven XML scanner: a cursor over a buffer of known size that reports start tags,
    attributes, text and end tags as it meets them. */
module MiniXml {
  import opened Options

  datatype Event =
    | Start(name: string)
    | Att(attName: string, value: string)
    | Data(text: string)
    | End(tag: string)

  predicate Blank(c: char) { c == ' ' || c == '\t' || c == '\r' || c == '\n' }

  // Some loops look at the character just behind the buffer before they test for its end; `past`
  // is whatever lies there.
  function At(b: string, past: char, i: nat): char
    requires i <= |b|
  {
    if i < |b| then b[i] else past
  }

  // The characters that end a scan.
  datatype Stop = Equals | NotBlank | Less | Greater | Quote(sep: char) | AttNameEnd | BareValueEnd

  predicate Stops(s: Stop, c: char) {
    match s
    case Equals => c == '='
    case NotBlank => !Blank(c)
    case Less => c == '<'
    case Greater => c == '>'
    case Quote(sep) => c == sep
    case AttNameEnd => c == '=' || Blank(c)
    case BareValueEnd => Blank(c) || c == '>' || c == '/'
  }

  // The loop shape of every scan: stop at a character, or give up at the end of the buffer.
  function Until(b: string, past: char, i: nat, stop: Stop): (r: Option<nat>)
    requires i <= |b|
    ensures r.Some? ==> i <= r.value <= |b| && Stops(stop, At(b, past, r.value)) && (i < |b| ==> r.value < |b|)
    decreases |b| - i
  {
    if Stops(stop, At(b, past, i)) then Some(i)
    else if i + 1 >= |b| then None
    else Until(b, past, i + 1, stop)
  }

  datatype AttScan = NoAtt | OneAtt(att: Event, next: nat)

  // An attribute's value, quoted or bare, from the first character behind the blanks.
  function AttValue(b: string, past: char, name: string, v: nat): (r: AttScan)
    requires v <= |b|
    ensures r.OneAtt? ==> v < r.next <= |b| + 1
  {
    var sep := At(b, past, v);
    if sep == '\'' || sep == '\"' then
      if v + 1 >= |b| then NoAtt
      else
        match Until(b, past, v + 1, Quote(sep))
        case None => NoAtt
        case Some(z) => OneAtt(Att(name, b[v + 1..z]), z + 1)
    else
      match Until(b, past, v, BareValueEnd)
      case None => NoAtt
      case Some(z) => OneAtt(Att(name, b[v..z]), z + 1)
  }

  // One attribute starting at `i`.
  function Attribute(b: string, past: char, i: nat): (r: AttScan)
    requires i < |b|
    ensures r.OneAtt? ==> i < r.next <= |b| + 1
  {
    match Until(b, past, i, AttNameEnd)
    case None => NoAtt
    case Some(nameEnd) =>
      match Until(b, past, nameEnd, Equals)
      case None => NoAtt
      case Some(equals) =>
        match Until(b, past, equals + 1, NotBlank)
        case None => NoAtt
        case Some(v) => AttValue(b, past, b[i..nameEnd], v)
  }

  // What a part of the scan reports, and where it leaves the cursor unless it gives up.
  datatype Scan = Scan(events: seq<Event>, next: Option<nat>)

  function Attributes(b: string, past: char, i: nat): (r: Scan)
    ensures r.next.Some? ==> i <= r.next.value < |b| && (b[r.next.value] == '/' || b[r.next.value] == '>')
    decreases |b| - i
  {
    if i >= |b| then Scan([], None)
    else if b[i] == '/' || b[i] == '>' then Scan([], Some(i))
    else if Blank(b[i]) then Attributes(b, past, i + 1)
    else
      match Attribute(b, past, i)
      case NoAtt => Scan([], None)
      case OneAtt(att, next) =>
        var rest := Attributes(b, past, next);
        Scan([att] + rest.events, rest.next)
  }

  predicate EndsName(c: char) { Blank(c) || c == '>' || c == '/' }

  datatype NameScan = NoName | NameAt(at: nat, end: nat)

  // The element name; a colon starts it afresh, which drops a namespace prefix.
  function ElementName(b: string, past: char, x: nat, at: nat): (r: NameScan)
    requires at <= x <= |b|
    ensures r.NameAt? ==> at <= r.at <= r.end <= |b| && x <= r.end && EndsName(At(b, past, r.end))
    decreases |b| - x
  {
    if EndsName(At(b, past, x)) then NameAt(at, x)
    else if x + 1 >= |b| then NoName
    else if b[x + 1] == ':' then ElementName(b, past, x + 2, x + 2)
    else ElementName(b, past, x + 1, at)
  }

  // The text after a start tag whose '>' is just before `d`.  The report starts at `d` but its
  // length leaves the leading blanks out of account.
  function Content(b: string, past: char, d: nat): (r: Scan)
    requires d <= |b|
    ensures r.next.Some? ==> d <= r.next.value
  {
    if d >= |b| then Scan([], None)
    else
      match Until(b, past, d, NotBlank)
      case None => Scan([], None)
      case Some(w) =>
        match Until(b, past, w, Less)
        case None => Scan([], None)
        case Some(z) => Scan(if z > w then [Data(b[d..d + (z - w)])] else [], Some(z))
  }

  function StartTag(b: string, past: char, at: nat, end: nat): (r: Scan)
    requires at <= end <= |b|
    ensures r.next.Some? ==> end <= r.next.value
  {
    var atts := Attributes(b, past, end);
    var seen := [Start(b[at..end])] + atts.events;
    match atts.next
    case None => Scan(seen, None)
    case Some(j) =>
      if b[j] == '/' then Scan(seen, Some(j))
      else var text := Content(b, past, j + 1); Scan(seen + text.events, text.next)
  }

  function EndTag(b: string, past: char, at: nat): (r: Scan)
    ensures r.next.Some? ==> at < r.next.value
  {
    if at >= |b| then Scan([], None)
    else
      match Until(b, past, at, Greater)
      case None => Scan([], None)
      case Some(z) => Scan([End(b[at..z])], Some(z + 1))
  }

  // From a '<' at `i`; the cursor always moves on.
  function Tag(b: string, past: char, i: nat): (r: Scan)
    requires i < |b|
    ensures r.next.Some? ==> i < r.next.value
  {
    match ElementName(b, past, i + 1, i + 1)
    case NoName => Scan([], None)
    case NameAt(at, end) =>
      if end > at then StartTag(b, past, at, end)
      else if At(b, past, end) == '/' then EndTag(b, past, end + 1)
      else Scan([], Some(end))
  }

  // All events from position `i` on.
  function Parse(b: string, past: char, i: nat): seq<Event>
    decreases |b| - i
  {
    if i + 1 >= |b| then []
    else if b[i] == '<' && b[i + 1] != '?' then
      var tag := Tag(b, past, i);
      tag.events + if tag.next.Some? then Parse(b, past, tag.next.value) else []
    else Parse(b, past, i + 1)
  }

  class XmlParser {
    const buffer: string
    const past: char
    var xml: nat
    var trace: seq<Event>

    constructor (buffer: string, past: char)
      ensures this.buffer == buffer && this.past == past && xml == 0 && trace == []
    {
      this.buffer, this.past := buffer, past;
      xml, trace := 0, [];
    }

    // Move the cursor to the next character that `stop` names.
    method Advance(stop: Stop) returns (found: bool)
      requires xml <= |buffer|
      modifies this`xml
      ensures found == Until(buffer, past, old(xml), stop).Some?
      ensures found ==> xml == Until(buffer, past, old(xml), stop).value
      ensures old(xml) <= xml
    {
      while !Stops(stop, At(buffer, past, xml))
        invariant old(xml) <= xml <= |buffer|
        invariant Until(buffer, past, old(xml), stop) == Until(buffer, past, xml, stop)
        decreases |buffer| - xml
      {
        xml := xml + 1;
        if xml >= |buffer| { return false; }
      }
      return true;
    }

    method ParseValue(name: string) returns (ok: bool)
      requires xml <= |buffer|
      modifies this
      ensures ok == AttValue(buffer, past, name, old(xml)).OneAtt?
      ensures ok ==> xml == AttValue(buffer, past, name, old(xml)).next
      ensures trace == old(trace) + if ok then [AttValue(buffer, past, name, old(xml)).att] else []
    {
      hide Until, Stops;
      var sep := At(buffer, past, xml);
      var attvalue := xml;
      if sep == '\'' || sep == '\"' {
        xml := xml + 1;
        if xml >= |buffer| { return false; }
        attvalue := xml;
        ok := Advance(Quote(sep));
      } else {
        ok := Advance(BareValueEnd);
      }
      if !ok { return; }
      trace := trace + [Att(name, buffer[attvalue..xml])];
      xml := xml + 1;
    }

    // One round of parseatt on a character that is not blank.
    method ParseOneAtt() returns (ok: bool)
      requires xml < |buffer|
      modifies this
      ensures ok == Attribute(buffer, past, old(xml)).OneAtt?
      ensures ok ==> xml == Attribute(buffer, past, old(xml)).next
      ensures trace == old(trace) + if ok then [Attribute(buffer, past, old(xml)).att] else []
    {
      hide Until, Stops, AttValue;
      var attname := xml;
      ok := Advance(AttNameEnd);
      if !ok { return; }
      var name := buffer[attname..xml];
      ok := Advance(Equals);
      if !ok { return; }
      xml := xml + 1;
      ok := Advance(NotBlank);
      if !ok { return; }
      ok := ParseValue(name);
    }

    method ParseAtt() returns (ok: bool)
      modifies this
      ensures ok == Attributes(buffer, past, old(xml)).next.Some?
      ensures ok ==> xml == Attributes(buffer, past, old(xml)).next.value
      ensures trace == old(trace) + Attributes(buffer, past, old(xml)).events
    {
      hide Attribute;
      ghost var all := Attributes(buffer, past, xml);
      while xml < |buffer|
        invariant old(xml) <= xml
        invariant trace + Attributes(buffer, past, xml).events == old(trace) + all.events
        invariant all.next == Attributes(buffer, past, xml).next
        decreases |buffer| - xml
      {
        if buffer[xml] == '/' || buffer[xml] == '>' { return true; }
        if Blank(buffer[xml]) {
          xml := xml + 1;
        } else {
          ghost var seen, rest := trace, Attributes(buffer, past, xml).events;
          ok := ParseOneAtt();
          if !ok { return false; }
          assert rest == [trace[|seen|]] + Attributes(buffer, past, xml).events;
          assert trace + Attributes(buffer, past, xml).events == seen + rest;
        }
      }
      return false;
    }

    // Find the element name behind a '<'.
    method ParseName() returns (found: bool, elementname: nat)
      requires xml <= |buffer|
      modifies this`xml
      ensures found == ElementName(buffer, past, old(xml), old(xml)).NameAt?
      ensures found ==> ElementName(buffer, past, old(xml), old(xml)) == NameAt(elementname, xml)
    {
      elementname := xml;
      while !EndsName(At(buffer, past, xml))
        invariant elementname <= xml <= |buffer|
        invariant ElementName(buffer, past, old(xml), old(xml)) == ElementName(buffer, past, xml, elementname)
        decreases |buffer| - xml
      {
        xml := xml + 1;
        if xml >= |buffer| { return false, 0; }
        if buffer[xml] == ':' {
          xml := xml + 1;
          elementname := xml;
        }
      }
      return true, elementname;
    }

    method ParseContent() returns (ok: bool)
      requires xml <= |buffer|
      modifies this
      ensures ok == Content(buffer, past, old(xml)).next.Some?
      ensures ok ==> xml == Content(buffer, past, old(xml)).next.value
      ensures trace == old(trace) + Content(buffer, past, old(xml)).events
    {
      hide Until, Stops;
      var data := xml;
      if xml >= |buffer| { return false; }
      ok := Advance(NotBlank);
      if !ok { return; }
      var from := xml;
      ok := Advance(Less);
      if !ok { return; }
      var i := xml - from;
      if i > 0 {
        trace := trace + [Data(buffer[data..data + i])];
      }
    }

    method ParseStartTag(elementname: nat) returns (ok: bool)
      requires elementname <= xml <= |buffer|
      modifies this
      ensures ok == StartTag(buffer, past, elementname, old(xml)).next.Some?
      ensures ok ==> xml == StartTag(buffer, past, elementname, old(xml)).next.value
      ensures trace == old(trace) + StartTag(buffer, past, elementname, old(xml)).events
    {
      hide Attributes, Content;
      trace := trace + [Start(buffer[elementname..xml])];
      ok := ParseAtt();
      if ok && buffer[xml] != '/' {
        xml := xml + 1;
        ok := ParseContent();
      }
    }

    method ParseEndTag() returns (ok: bool)
      modifies this
      ensures ok == EndTag(buffer, past, old(xml)).next.Some?
      ensures ok ==> xml == EndTag(buffer, past, old(xml)).next.value
      ensures trace == old(trace) + EndTag(buffer, past, old(xml)).events
    {
      hide Until, Stops;
      var elementname := xml;
      if xml >= |buffer| { return false; }
      ok := Advance(Greater);
      if !ok { return; }
      trace := trace + [End(buffer[elementname..xml])];
      xml := xml + 1;
    }

    // One round of parseelt at a '<'.
    method ParseTag() returns (ok: bool)
      requires xml < |buffer|
      modifies this
      ensures ok == Tag(buffer, past, old(xml)).next.Some?
      ensures ok ==> xml == Tag(buffer, past, old(xml)).next.value
      ensures trace == old(trace) + Tag(buffer, past, old(xml)).events
    {
      hide ElementName, StartTag, EndTag;
      xml := xml + 1;
      var found, elementname := ParseName();
      if !found { return false; }
      if xml > elementname {
        ok := ParseStartTag(elementname);
      } else if At(buffer, past, xml) == '/' {
        xml := xml + 1;
        ok := ParseEndTag();
      } else {
        ok := true;
      }
    }

    method ParseElt()
      modifies this
      ensures trace == old(trace) + Parse(buffer, past, old(xml))
    {
      hide Tag;
      while xml + 1 < |buffer|
        invariant old(xml) <= xml
        invariant trace + Parse(buffer, past, xml) == old(trace) + Parse(buffer, past, old(xml))
        decreases |buffer| - xml
      {
        if buffer[xml] == '<' && buffer[xml + 1] != '?' {
          var ok := ParseTag();
          if !ok { return; }
        } else {
          xml := xml + 1;
        }
      }
    }
  }

  method ParseXml(buffer: string, past: char) returns (trace: seq<Event>)
    ensures trace == Parse(buffer, past, 0)
  {
    var parser := new XmlParser(buffer, past);
    parser.ParseElt();
    trace := parser.trace;
  }
}
