/** Printing a tree of elements and scanning it again. */
module XmlRoundTrip {
  import opened Options
  import opened Substrings
  import opened MiniXml

  // An attribute with its blanks: gap name before = after "value".
  datatype Attr = Attr(gap: string, name: string, before: string, after: string, quote: char, value: string)

  // `lead` is what follows an element's first text from a processing instruction on, up to the next
  // tag; `after` is what follows the element itself up to the next tag.
  datatype Node =
    | Element(prefix: string, name: string, atts: seq<Attr>, trail: string, text: string, lead: string,
        kids: seq<Node>, after: string)
    | Closed(prefix: string, name: string, atts: seq<Attr>, trail: string, after: string)

  predicate White(c: char) { c in {' ', '\t', '\r', '\n'} }

  predicate Blanks(s: string) { forall i :: 0 <= i < |s| ==> White(s[i]) }

  predicate Lacks(s: string, stop: Stop) { forall i :: 0 <= i < |s| ==> !Stops(stop, s[i]) }

  predicate NameChars(s: string) { forall i :: 0 <= i < |s| ==> !White(s[i]) && s[i] !in {'>', '/', ':'} }

  // Every '<' opens a processing instruction.
  predicate Skippable(s: string) {
    forall i :: 0 <= i < |s| && s[i] == '<' ==> i + 1 < |s| && s[i + 1] == '?'
  }

  predicate AttName(name: string) {
    name != "" && name[0] != '/' && name[0] != '>' && forall i :: 0 <= i < |name| ==> !White(name[i]) && name[i] != '='
  }

  // A value without quotes around it.
  predicate BareValue(value: string) {
    && value != "" && value[0] != '\'' && value[0] != '\"'
    && forall i :: 0 <= i < |value| ==> !White(value[i]) && value[i] != '>' && value[i] != '/'
  }

  predicate GoodAttr(a: Attr) {
    && a.gap != "" && Blanks(a.gap) && Blanks(a.before) && Blanks(a.after)
    && AttName(a.name) && (a.quote == '\'' || a.quote == '\"') && a.quote !in a.value
  }

  predicate GoodAttrs(atts: seq<Attr>) { forall i :: 0 <= i < |atts| ==> GoodAttr(atts[i]) }

  function TagName(n: Node): string {
    if n.prefix == "" then n.name else n.prefix + ":" + n.name
  }

  predicate GoodHead(n: Node) {
    && n.name != "" && NameChars(n.name) && NameChars(n.prefix) && TagName(n)[0] != '?'
    && GoodAttrs(n.atts) && Blanks(n.trail) && Skippable(n.after)
  }

  predicate GoodLead(s: string) { Skippable(s) && (s == "" || s[0] == '<') }

  predicate Good(n: Node)
    decreases n
  {
    GoodHead(n) && (n.Element? ==> '<' !in n.text && GoodLead(n.lead) && AllGood(n.kids))
  }

  predicate AllGood(ns: seq<Node>)
    decreases ns
  {
    ns == [] || (Good(ns[0]) && AllGood(ns[1..]))
  }

  function PrintAssign(a: Attr): string {
    a.before + ("=" + (a.after + ([a.quote] + (a.value + [a.quote]))))
  }

  function PrintAttrs(atts: seq<Attr>): string {
    if atts == [] then "" else atts[0].gap + (atts[0].name + (PrintAssign(atts[0]) + PrintAttrs(atts[1..])))
  }

  function PrintHead(n: Node): string {
    "<" + (TagName(n) + (PrintAttrs(n.atts) + n.trail))
  }

  function Print(n: Node): string
    decreases n
  {
    match n
    case Element(_, _, _, _, text, lead, kids, after) =>
      PrintHead(n) + (">" + (text + (lead + (PrintAll(kids) + ("</" + (TagName(n) + (">" + after)))))))
    case Closed(_, _, _, _, after) => PrintHead(n) + ("/>" + after)
  }

  function PrintAll(ns: seq<Node>): string
    decreases ns
  {
    if ns == [] then "" else Print(ns[0]) + PrintAll(ns[1..])
  }

  function AttrTrace(atts: seq<Attr>): seq<Event> {
    if atts == [] then [] else [Att(atts[0].name, atts[0].value)] + AttrTrace(atts[1..])
  }

  function LeadingBlanks(s: string): (k: nat)
    ensures k <= |s|
  {
    if s == "" || !White(s[0]) then 0 else 1 + LeadingBlanks(s[1..])
  }

  // The text as reported: as many characters short at its end as it has blanks in front.
  function TextTrace(text: string): seq<Event> {
    var k := LeadingBlanks(text);
    if k == |text| then [] else [Data(text[..|text| - k])]
  }

  // Preorder: start, attributes, text, children, end.  A self-closed element has no end event.
  function Trace(n: Node): seq<Event>
    decreases n
  {
    [Start(n.name)] + AttrTrace(n.atts)
    + match n
      case Element(_, _, _, _, text, _, kids, _) => TextTrace(text) + TraceAll(kids) + [End(TagName(n))]
      case Closed(_, _, _, _, _) => []
  }

  function TraceAll(ns: seq<Node>): seq<Event>
    decreases ns
  {
    if ns == [] then [] else Trace(ns[0]) + TraceAll(ns[1..])
  }

  lemma {:induction false} UntilFinds(b: string, past: char, i: nat, stop: Stop, k: nat)
    requires i <= k < |b| && Stops(stop, b[k])
    requires forall j :: i <= j < k ==> !Stops(stop, b[j])
    ensures Until(b, past, i, stop) == Some(k)
    decreases k - i
  {
    hide Stops;
    if i < k { UntilFinds(b, past, i + 1, stop, k); }
  }

  // A scan runs over `s` and stops behind it.
  lemma {:induction false} ScanOver(b: string, past: char, i: nat, s: string, stop: Stop)
    requires Sub(b, i, s) && Lacks(s, stop) && i + |s| < |b| && Stops(stop, b[i + |s|])
    ensures Until(b, past, i, stop) == Some(i + |s|)
  {
    hide Stops, Until;
    forall j | i <= j < i + |s| ensures !Stops(stop, b[j]) {
      SubAt(b, i, s, j - i);
    }
    UntilFinds(b, past, i, stop, i + |s|);
  }

  lemma {:induction false} ValueRead(b: string, past: char, i: nat, a: Attr)
    requires GoodAttr(a) && Sub(b, i, [a.quote] + (a.value + [a.quote]))
    ensures AttValue(b, past, a.name, i) == OneAtt(Att(a.name, a.value), i + |a.value| + 2)
  {
    hide Until, Stops;
    var s := a.value + [a.quote];
    SubSplit(b, i, [a.quote], s);
    SubAt(b, i, [a.quote], 0);
    SubSplit(b, i + 1, a.value, [a.quote]);
    SubIs(b, i + 1, a.value);
    SubAt(b, i + 1 + |a.value|, [a.quote], 0);
    assert Stops(Quote(a.quote), a.quote) by { QuoteStops(a.quote); }
    ValueLacks(a.value, a.quote);
    ScanOver(b, past, i + 1, a.value, Quote(a.quote));
  }

  lemma {:induction false} ValueLacks(value: string, quote: char)
    requires quote !in value
    ensures Lacks(value, Quote(quote))
  {
  }

  lemma {:induction false} QuoteStops(c: char)
    ensures Stops(Quote(c), c)
  {
  }

  lemma {:induction false} BlanksLack(s: string)
    requires Blanks(s)
    ensures Lacks(s, Equals) && Lacks(s, NotBlank)
  {
  }

  lemma {:induction false} AttrShape(a: Attr)
    requires GoodAttr(a)
    ensures a.name != "" && Lacks(a.name, AttNameEnd) && Lacks(a.before, Equals) && Lacks(a.after, NotBlank)
    ensures |PrintAssign(a)| > 0 && Stops(AttNameEnd, PrintAssign(a)[0])
    ensures Stops(Equals, '=') && Stops(NotBlank, a.quote)
  {
    BlanksLack(a.before);
    BlanksLack(a.after);
  }

  // From the equals sign to behind the closing quote.
  lemma {:induction false} AssignRead(b: string, past: char, n: nat, a: Attr)
    requires GoodAttr(a) && Sub(b, n, PrintAssign(a))
    ensures var e := n + |a.before|;
            && e < |b| && Until(b, past, n, Equals) == Some(e)
            && Until(b, past, e + 1, NotBlank) == Some(e + 1 + |a.after|)
            && e + 1 + |a.after| < |b|
            && AttValue(b, past, a.name, e + 1 + |a.after|) == OneAtt(Att(a.name, a.value), n + |PrintAssign(a)|)
  {
    hide Until, AttValue, Sub, Lacks, Stops, GoodAttr;
    var quoted := [a.quote] + (a.value + [a.quote]);
    AttrShape(a);
    SubSplit(b, n, a.before, "=" + (a.after + quoted));
    var e := n + |a.before|;
    SubSplit(b, e, "=", a.after + quoted);
    SubAt(b, e, "=", 0);
    ScanOver(b, past, n, a.before, Equals);
    SubSplit(b, e + 1, a.after, quoted);
    SubAt(b, e + 1 + |a.after|, quoted, 0);
    ScanOver(b, past, e + 1, a.after, NotBlank);
    ValueRead(b, past, e + 1 + |a.after|, a);
  }

  // From the first character of an attribute's name to behind its closing quote.
  lemma {:induction false} AttributeRead(b: string, past: char, i: nat, a: Attr)
    requires GoodAttr(a) && Sub(b, i, a.name + PrintAssign(a))
    ensures i < |b| && Attribute(b, past, i) == OneAtt(Att(a.name, a.value), i + |a.name| + |PrintAssign(a)|)
  {
    hide Until, AttValue, Sub, Lacks, Stops, GoodAttr, PrintAssign;
    AttrShape(a);
    SubSplit(b, i, a.name, PrintAssign(a));
    SubIs(b, i, a.name);
    SubAt(b, i + |a.name|, PrintAssign(a), 0);
    ScanOver(b, past, i, a.name, AttNameEnd);
    AssignRead(b, past, i + |a.name|, a);
  }

  // A bare value is reported up to the character that ends it, and that character is swallowed:
  // the '>' of an unquoted attribute no longer closes its tag.
  lemma {:induction false} BareAttributeRead(b: string, past: char, i: nat, name: string, value: string, c: char)
    requires AttName(name) && BareValue(value) && (White(c) || c == '>' || c == '/')
    requires Sub(b, i, name + ("=" + (value + [c])))
    ensures i < |b| && Attribute(b, past, i) == OneAtt(Att(name, value), i + |name| + |value| + 2)
  {
    hide Until, Sub, Lacks;
    BareLacks(name, value);
    var n := i + |name|;
    SubSplit(b, i, name, "=" + (value + [c]));
    SubIs(b, i, name);
    SubSplit(b, n, "=", value + [c]);
    SubAt(b, n, "=", 0);
    ScanOver(b, past, i, name, AttNameEnd);
    NothingLacks(Equals);
    NothingLacks(NotBlank);
    SubHere(b, n, "");
    SubHere(b, n + 1, "");
    SubSplit(b, n + 1, value, [c]);
    SubIs(b, n + 1, value);
    SubAt(b, n + 1, value, 0);
    SubAt(b, n + 1 + |value|, [c], 0);
    ScanOver(b, past, n, "", Equals);
    BareStarts(value);
    ScanOver(b, past, n + 1, "", NotBlank);
    ScanOver(b, past, n + 1, value, BareValueEnd);
  }

  // The attributes go on as they should behind a bare value exactly when a blank ends it; a '>' or '/'
  // is lost, and the scan runs on behind the tag.
  lemma {:induction false} BareValueNeedsBlank(b: string, past: char, i: nat, name: string, value: string, c: char)
    requires AttName(name) && BareValue(value) && (White(c) || c == '>' || c == '/')
    requires Sub(b, i, name + ("=" + (value + [c])))
    ensures var rest := Attributes(b, past, i + |name| + 1 + |value|);
            Attributes(b, past, i) == Scan([Att(name, value)] + rest.events, rest.next) <==> White(c)
  {
    hide Attribute, Sub, Lacks;
    BareAttributeRead(b, past, i, name, value, c);
    BareLacks(name, value);
    var z := i + |name| + 1 + |value|;
    SubAt(b, i, name + ("=" + (value + [c])), 0);
    SubAt(b, i, name + ("=" + (value + [c])), |name| + 1 + |value|);
    assert b[z] == c;
  }

  lemma {:induction false} BareLacks(name: string, value: string)
    requires AttName(name) && BareValue(value)
    ensures Lacks(name, AttNameEnd) && Lacks(value, BareValueEnd) && !Blank(name[0])
  {
  }

  lemma {:induction false} NothingLacks(stop: Stop)
    ensures Lacks("", stop)
  {
  }

  lemma {:induction false} BareStarts(value: string)
    requires value != "" && Lacks(value, BareValueEnd)
    ensures Stops(NotBlank, value[0])
  {
    assert !Stops(BareValueEnd, value[0]);
  }

  lemma {:induction false} BlanksSkipped(b: string, past: char, i: nat, s: string)
    requires Sub(b, i, s) && Blanks(s)
    ensures Attributes(b, past, i) == Attributes(b, past, i + |s|)
    decreases |s|
  {
    hide Attribute;
    if s != "" {
      assert s == [s[0]] + s[1..];
      SubSplit(b, i, [s[0]], s[1..]);
      SubAt(b, i, s, 0);
      BlanksSkipped(b, past, i + 1, s[1..]);
    }
  }

  lemma {:induction false} AttributesRead(b: string, past: char, i: nat, atts: seq<Attr>, trail: string)
    requires GoodAttrs(atts) && Blanks(trail) && Sub(b, i, PrintAttrs(atts) + trail)
    requires var z := i + |PrintAttrs(atts) + trail|; z < |b| && (b[z] == '/' || b[z] == '>')
    ensures Attributes(b, past, i) == Scan(AttrTrace(atts), Some(i + |PrintAttrs(atts) + trail|))
    decreases |atts|
  {
    hide Attribute, GoodAttr, PrintAssign, Sub, Blanks;
    if atts == [] {
      assert PrintAttrs(atts) + trail == trail;
      BlanksSkipped(b, past, i, trail);
    } else {
      var a := atts[0];
      var own, more := a.name + PrintAssign(a), PrintAttrs(atts[1..]) + trail;
      assert PrintAttrs(atts) + trail == a.gap + (own + more);
      GoodGap(a);
      SubSplit(b, i, a.gap, own + more);
      BlanksSkipped(b, past, i, a.gap);
      var j := i + |a.gap|;
      SubSplit(b, j, own, more);
      AttributesRead(b, past, j + |own|, atts[1..], trail);
      OneMore(b, past, j, a, AttrTrace(atts[1..]), i + |PrintAttrs(atts) + trail|);
    }
  }

  lemma {:induction false} OneMore(b: string, past: char, j: nat, a: Attr, later: seq<Event>, end: nat)
    requires GoodAttr(a) && Sub(b, j, a.name + PrintAssign(a))
    requires Attributes(b, past, j + |a.name + PrintAssign(a)|) == Scan(later, Some(end))
    ensures Attributes(b, past, j) == Scan([Att(a.name, a.value)] + later, Some(end))
  {
    hide Attribute, GoodAttr, PrintAssign, Sub;
    GoodGap(a);
    AttributeRead(b, past, j, a);
    SubAt(b, j, a.name + PrintAssign(a), 0);
  }

  lemma {:induction false} GoodGap(a: Attr)
    requires GoodAttr(a)
    ensures Blanks(a.gap) && a.name != "" && !Blank(a.name[0]) && a.name[0] != '/' && a.name[0] != '>'
  {
  }

  lemma {:induction false} NameRead(b: string, past: char, i: nat, at: nat, name: string)
    requires at <= i && Sub(b, i, name) && NameChars(name) && i + |name| < |b| && EndsName(b[i + |name|])
    ensures ElementName(b, past, i, at) == NameAt(at, i + |name|)
    decreases |name|
  {
    if name != "" {
      assert name == [name[0]] + name[1..];
      SubSplit(b, i, [name[0]], name[1..]);
      SubAt(b, i, name, 0);
      if |name| > 1 { SubAt(b, i, name, 1); }
      NameRead(b, past, i + 1, at, name[1..]);
    }
  }

  lemma {:induction false} PrefixRead(b: string, past: char, i: nat, at: nat, prefix: string, name: string)
    requires at <= i && prefix != "" && Sub(b, i, prefix + ":" + name) && NameChars(prefix) && NameChars(name)
    requires var z := i + |prefix| + 1 + |name|; z < |b| && EndsName(b[z])
    ensures ElementName(b, past, i, at) == NameAt(i + |prefix| + 1, i + |prefix| + 1 + |name|)
    decreases |prefix|
  {
    var tag := prefix + ":" + name;
    SubAt(b, i, tag, 0);
    SubAt(b, i, tag, 1);
    if |prefix| == 1 {
      assert tag == prefix + (":" + name) && ":" + name == ":" + name;
      SubSplit(b, i, prefix, ":" + name);
      SubSplit(b, i + 1, ":", name);
      NameRead(b, past, i + 2, i + 2, name);
    } else {
      assert tag == [prefix[0]] + (prefix[1..] + ":" + name);
      SubSplit(b, i, [prefix[0]], prefix[1..] + ":" + name);
      PrefixRead(b, past, i + 1, at, prefix[1..], name);
    }
  }

  // The tag name, of which only the part behind the prefix is reported.
  lemma {:induction false} TagNameRead(b: string, past: char, i: nat, n: Node)
    requires GoodHead(n) && Sub(b, i, TagName(n)) && i + |TagName(n)| < |b| && EndsName(b[i + |TagName(n)|])
    ensures var end := i + |TagName(n)|;
            ElementName(b, past, i, i) == NameAt(end - |n.name|, end) && b[end - |n.name|..end] == n.name
  {
    hide Sub, ElementName, EndsName, NameChars, GoodAttrs, Blanks, Skippable;
    if n.prefix == "" {
      NameRead(b, past, i, i, n.name);
      SubIs(b, i, n.name);
    } else {
      PrefixRead(b, past, i, i, n.prefix, n.name);
      assert TagName(n) == (n.prefix + ":") + n.name;
      SubSplit(b, i, n.prefix + ":", n.name);
      SubIs(b, i + |n.prefix| + 1, n.name);
    }
  }

  lemma {:induction false} JunkSkipped(b: string, past: char, i: nat, s: string)
    requires Sub(b, i, s) && Skippable(s)
    ensures Parse(b, past, i) == Parse(b, past, i + |s|)
    decreases |s|
  {
    hide Tag;
    if s != "" {
      assert s == [s[0]] + s[1..];
      SubSplit(b, i, [s[0]], s[1..]);
      SubAt(b, i, s, 0);
      if |s| > 1 { SubAt(b, i, s, 1); }
      assert Skippable(s[1..]);
      JunkSkipped(b, past, i + 1, s[1..]);
    }
  }

  lemma {:induction false} LeadingSplit(s: string)
    ensures var k := LeadingBlanks(s); Blanks(s[..k]) && (k < |s| ==> !White(s[k]))
  {
    if s != "" && White(s[0]) {
      var k := LeadingBlanks(s[1..]);
      LeadingSplit(s[1..]);
      assert s[..k + 1] == [s[0]] + s[1..][..k];
    }
  }

  // The two scans over an element's text.
  lemma {:induction false} TextScanned(b: string, past: char, d: nat, text: string)
    requires Sub(b, d, text) && '<' !in text && d + |text| < |b| && b[d + |text|] == '<'
    ensures var k := LeadingBlanks(text);
            Until(b, past, d, NotBlank) == Some(d + k) && Until(b, past, d + k, Less) == Some(d + |text|)
  {
    hide Until, Sub, Lacks, Stops, Blanks, LeadingBlanks;
    var k := LeadingBlanks(text);
    LeadingSplit(text);
    var front, back := text[..k], text[k..];
    assert text == front + back;
    SubSplit(b, d, front, back);
    TextStops(text);
    BlanksLack(front);
    if k < |text| { SubAt(b, d, text, k); }
    ScanOver(b, past, d, front, NotBlank);
    ScanOver(b, past, d + k, back, Less);
  }

  lemma {:induction false} ContentRead(b: string, past: char, d: nat, text: string)
    requires Sub(b, d, text) && '<' !in text && d + |text| < |b| && b[d + |text|] == '<'
    ensures Content(b, past, d) == Scan(TextTrace(text), Some(d + |text|))
  {
    hide Until, Sub, Lacks, LeadingBlanks;
    TextScanned(b, past, d, text);
    var n := |text| - LeadingBlanks(text);
    var front, back := text[..n], text[n..];
    assert text == front + back;
    SubSplit(b, d, front, back);
    SubIs(b, d, front);
  }

  lemma {:induction false} TextStops(text: string)
    requires '<' !in text
    ensures var k := LeadingBlanks(text); Lacks(text[k..], Less) && Stops(NotBlank, if k < |text| then text[k] else '<')
    ensures Stops(Less, '<')
  {
    hide LeadingBlanks;
    LeadingSplit(text);
    var k := LeadingBlanks(text);
    forall j | 0 <= j < |text[k..]| ensures !Stops(Less, text[k..][j]) {
      assert text[k..][j] == text[k + j];
    }
  }

  predicate EndsHead(c: char) { c == '/' || c == '>' }

  // What follows a tag name ends it.
  lemma {:induction false} NameEnds(b: string, i: nat, n: Node)
    requires GoodHead(n) && Sub(b, i, PrintAttrs(n.atts) + n.trail)
    requires i + |PrintAttrs(n.atts) + n.trail| < |b| && EndsHead(b[i + |PrintAttrs(n.atts) + n.trail|])
    ensures i < |b| && EndsName(b[i])
  {
    var s := PrintAttrs(n.atts) + n.trail;
    if s != "" {
      SubAt(b, i, s, 0);
      if n.atts != [] {
        assert GoodAttr(n.atts[0]) && s[0] == n.atts[0].gap[0];
      }
    }
  }

  lemma {:induction false} TagShape(n: Node)
    requires GoodHead(n)
    ensures TagName(n) != "" && TagName(n)[0] != '?' && !EndsName(TagName(n)[0]) && Lacks(TagName(n), Greater)
    ensures n.name != "" && GoodAttrs(n.atts) && Blanks(n.trail) && Skippable(n.after)
  {
  }

  // A start tag up to its closing '>' or '/'.
  lemma {:induction false} HeadRead(b: string, past: char, i: nat, n: Node)
    requires GoodHead(n) && Sub(b, i, PrintHead(n))
    requires var z := i + |PrintHead(n)|; z < |b| && EndsHead(b[z])
    ensures i + 1 < |b| && b[i] == '<' && b[i + 1] != '?'
    ensures var z, seen := i + |PrintHead(n)|, [Start(n.name)] + AttrTrace(n.atts);
            Tag(b, past, i) == if b[z] == '/' then Scan(seen, Some(z))
                               else Scan(seen + Content(b, past, z + 1).events, Content(b, past, z + 1).next)
  {
    hide GoodHead, Sub, TagName, PrintAttrs, Attributes, Content, ElementName, AttrTrace, EndTag;
    var tag, more := TagName(n), PrintAttrs(n.atts) + n.trail;
    TagShape(n);
    SubSplit(b, i, "<", tag + more);
    SubAt(b, i, "<", 0);
    SubSplit(b, i + 1, tag, more);
    SubAt(b, i + 1, tag, 0);
    var end := i + 1 + |tag|;
    NameEnds(b, end, n);
    TagNameRead(b, past, i + 1, n);
    AttributesRead(b, past, end, n.atts, n.trail);
  }

  // An end tag under the cursor.
  lemma {:induction false} EndTagRead(b: string, past: char, i: nat, tag: string)
    requires Sub(b, i, "</") && Sub(b, i + 2, tag) && tag != "" && Lacks(tag, Greater)
    requires i + 2 + |tag| < |b| && b[i + 2 + |tag|] == '>'
    ensures Tag(b, past, i) == Scan([End(tag)], Some(i + 3 + |tag|))
  {
    hide Sub, StartTag, Until, Lacks;
    SubAt(b, i, "</", 1);
    SubIs(b, i + 2, tag);
    ScanOver(b, past, i + 2, tag, Greater);
  }

  lemma {:induction false} EndRead(b: string, past: char, i: nat, n: Node)
    requires GoodHead(n) && Sub(b, i, "</" + (TagName(n) + ">"))
    ensures Parse(b, past, i) == [End(TagName(n))] + Parse(b, past, i + |TagName(n)| + 3)
  {
    hide GoodHead, Sub, TagName, Tag, Lacks;
    var tag := TagName(n);
    TagShape(n);
    SubSplit(b, i, "</", tag + ">");
    SubAt(b, i, "</", 0);
    SubAt(b, i, "</", 1);
    SubSplit(b, i + 2, tag, ">");
    SubAt(b, i + 2 + |tag|, ">", 0);
    EndTagRead(b, past, i, tag);
  }

  lemma {:induction false} ClosedRead(b: string, past: char, i: nat, n: Node)
    requires Good(n) && n.Closed? && Sub(b, i, Print(n))
    ensures Parse(b, past, i) == Trace(n) + Parse(b, past, i + |Print(n)|)
  {
    hide GoodHead, Sub, Tag, PrintHead, AttrTrace, Skippable, Parse;
    var tail := "/>" + n.after;
    SubSplit(b, i, PrintHead(n), tail);
    var z := i + |PrintHead(n)|;
    SubAt(b, z, tail, 0);
    HeadRead(b, past, i, n);
    ParseTag(b, past, i);
    TagShape(n);
    SlashSkippable(n.after);
    JunkSkipped(b, past, z, tail);
  }

  lemma {:induction false} SlashSkippable(s: string)
    requires Skippable(s)
    ensures Skippable("/>" + s)
  {
    var t := "/>" + s;
    forall i | 0 <= i < |t| && t[i] == '<' ensures i + 1 < |t| && t[i + 1] == '?' {
      assert s[i - 2] == '<';
    }
  }

  // The printed element, split where the scanner stops.
  lemma {:induction false} ElementSplit(b: string, i: nat, n: Node)
    requires n.Element? && Sub(b, i, Print(n))
    ensures var z := i + |PrintHead(n)|; var l := z + 1 + |n.text|; var d := l + |n.lead|;
            var e := d + |PrintAll(n.kids)|;
            && Sub(b, i, PrintHead(n)) && z < |b| && b[z] == '>'
            && Sub(b, z + 1, n.text) && Sub(b, l, n.lead) && Sub(b, d, PrintAll(n.kids))
            && Sub(b, e, "</" + (TagName(n) + ">")) && Sub(b, e + |TagName(n)| + 3, n.after)
            && i + |Print(n)| == e + |TagName(n)| + 3 + |n.after|
  {
    hide Sub, PrintHead, TagName, PrintAll;
    var tag, kids := TagName(n), PrintAll(n.kids);
    var s5 := "</" + (tag + (">" + n.after));
    var s4 := kids + s5;
    var s3 := n.lead + s4;
    var s2 := n.text + s3;
    SubSplit(b, i, PrintHead(n), ">" + s2);
    var z := i + |PrintHead(n)|;
    SubSplit(b, z, ">", s2);
    SubAt(b, z, ">", 0);
    SubSplit(b, z + 1, n.text, s3);
    var l := z + 1 + |n.text|;
    SubSplit(b, l, n.lead, s4);
    SubSplit(b, l + |n.lead|, kids, s5);
    assert s5 == ("</" + (tag + ">")) + n.after;
    SubSplit(b, l + |n.lead| + |kids|, "</" + (tag + ">"), n.after);
  }

  // A processing instruction, children or the end tag: either way a '<'.
  lemma {:induction false} OpensWithLess(ns: seq<Node>, rest: string)
    ensures |PrintAll(ns) + ("</" + rest)| > 0 && (PrintAll(ns) + ("</" + rest))[0] == '<'
  {
    if ns != [] {
      assert PrintHead(ns[0])[0] == '<';
      assert Print(ns[0])[0] == '<';
    }
  }

  lemma {:induction false} KidsOpen(b: string, l: nat, n: Node)
    requires n.Element? && GoodLead(n.lead) && Sub(b, l, n.lead) && Sub(b, l + |n.lead|, PrintAll(n.kids))
    requires Sub(b, l + |n.lead| + |PrintAll(n.kids)|, "</" + (TagName(n) + ">"))
    ensures l < |b| && b[l] == '<'
  {
    hide TagName, Sub, PrintAll;
    OpensWithLess(n.kids, TagName(n) + ">");
    if n.lead != "" {
      SubAt(b, l, n.lead, 0);
    } else if PrintAll(n.kids) != "" {
      SubAt(b, l, PrintAll(n.kids), 0);
    } else {
      SubAt(b, l, "</" + (TagName(n) + ">"), 0);
    }
  }

  // The scan from a start tag to where its content ends.
  lemma {:induction false} OpeningRead(b: string, past: char, i: nat, n: Node)
    requires Good(n) && n.Element? && Sub(b, i, Print(n))
    ensures Parse(b, past, i)
         == [Start(n.name)] + AttrTrace(n.atts) + TextTrace(n.text) + Parse(b, past, i + |PrintHead(n)| + 1 + |n.text|)
  {
    hide GoodHead, Sub, Tag, PrintHead, AttrTrace, TextTrace, Print, PrintAll, Content, Parse, TagName;
    ElementSplit(b, i, n);
    var z := i + |PrintHead(n)|;
    HeadRead(b, past, i, n);
    KidsOpen(b, z + 1 + |n.text|, n);
    ContentRead(b, past, z + 1, n.text);
    ParseTag(b, past, i);
  }

  lemma {:induction false} ParseTag(b: string, past: char, i: nat)
    requires i + 1 < |b| && b[i] == '<' && b[i + 1] != '?' && Tag(b, past, i).next.Some?
    ensures Parse(b, past, i) == Tag(b, past, i).events + Parse(b, past, Tag(b, past, i).next.value)
  {
    hide Tag;
  }

  // Scanning a printed node reports its trace and goes on behind it.
  lemma {:induction false} NodeRead(b: string, past: char, i: nat, n: Node)
    requires Good(n) && Sub(b, i, Print(n))
    ensures Parse(b, past, i) == Trace(n) + Parse(b, past, i + |Print(n)|)
    decreases n
  {
    hide GoodHead, Sub, PrintHead, AttrTrace, TextTrace, Print, PrintAll, Parse, TagName, TraceAll;
    if n.Closed? {
      ClosedRead(b, past, i, n);
    } else {
      OpeningRead(b, past, i, n);
      ElementSplit(b, i, n);
      var l := i + |PrintHead(n)| + 1 + |n.text|;
      JunkSkipped(b, past, l, n.lead);
      var d := l + |n.lead|;
      NodesRead(b, past, d, n.kids);
      var e := d + |PrintAll(n.kids)|;
      EndRead(b, past, e, n);
      TagShape(n);
      JunkSkipped(b, past, e + |TagName(n)| + 3, n.after);
      var rest := Parse(b, past, i + |Print(n)|);
      var first := [Start(n.name)] + AttrTrace(n.atts) + TextTrace(n.text);
      assert first + (TraceAll(n.kids) + ([End(TagName(n))] + rest)) == Trace(n) + rest;
    }
  }

  lemma {:induction false} NodesRead(b: string, past: char, i: nat, ns: seq<Node>)
    requires AllGood(ns) && Sub(b, i, PrintAll(ns))
    ensures Parse(b, past, i) == TraceAll(ns) + Parse(b, past, i + |PrintAll(ns)|)
    decreases ns
  {
    hide Good, Sub, Print, Parse, Trace;
    if ns != [] {
      SubSplit(b, i, Print(ns[0]), PrintAll(ns[1..]));
      NodeRead(b, past, i, ns[0]);
      NodesRead(b, past, i + |Print(ns[0])|, ns[1..]);
    }
  }

  // A document of any elements behind any prolog reports exactly their traces, whatever lies
  // behind the buffer.
  lemma {:induction false} DocumentTrace(prolog: string, ns: seq<Node>, past: char)
    requires Skippable(prolog) && AllGood(ns)
    ensures Parse(prolog + PrintAll(ns), past, 0) == TraceAll(ns)
  {
    hide AllGood, PrintAll, TraceAll, Skippable, Sub, Parse;
    var b := prolog + PrintAll(ns);
    SubHere(b, 0, b);
    SubSplit(b, 0, prolog, PrintAll(ns));
    JunkSkipped(b, past, 0, prolog);
    NodesRead(b, past, |prolog|, ns);
    ParseEnds(b, past);
  }

  lemma {:induction false} ParseEnds(b: string, past: char)
    ensures Parse(b, past, |b|) == []
  {
  }

  // Text that is not all blank, as a whole; blank text between tags does not count.
  function WholeText(text: string): seq<Event> {
    if Blanks(text) then [] else [Data(text)]
  }

  // Text comes through whole exactly when it is blank or does not begin with a blank.
  lemma {:induction false} TextWhole(text: string)
    ensures TextTrace(text) == WholeText(text) <==> Blanks(text) || !White(text[0])
  {
    hide LeadingBlanks;
    LeadingSplit(text);
    LeadingAll(text);
    var k := LeadingBlanks(text);
    if k == 0 {
      assert text[..|text| - k] == text;
    } else if k < |text| {
      assert |text[..|text| - k]| < |text|;
      assert text[..k][0] == text[0];
    }
  }

  lemma {:induction false} LeadingAll(s: string)
    ensures LeadingBlanks(s) == |s| <==> Blanks(s)
  {
    hide LeadingBlanks;
    LeadingSplit(s);
    var k := LeadingBlanks(s);
    if k == |s| { assert s[..k] == s; }
  }
}
