/** Which trees the scanner reports by their plain preorder trace, and which not. */
module XmlShortfalls {
  import opened MiniXml
  import opened XmlRoundTrip

  // What is left of a stretch between tags when its processing instructions are taken out; `inside`
  // tells whether it begins inside one.
  function Prose(s: string, inside: bool): string
    decreases |s|
  {
    if s == "" then ""
    else if inside then
      if |s| >= 2 && s[0] == '?' && s[1] == '>' then Prose(s[2..], false) else Prose(s[1..], true)
    else if |s| >= 2 && s[0] == '<' && s[1] == '?' then Prose(s[2..], true)
    else [s[0]] + Prose(s[1..], false)
  }

  // The text behind a processing instruction or an element.
  function LateText(s: string): seq<Event> { WholeText(Prose(s, false)) }

  // The plain preorder trace: every text, whole, and an end under its own name for every element.
  function Ideal(n: Node): seq<Event>
    decreases n
  {
    [Start(n.name)] + AttrTrace(n.atts)
    + match n
      case Element(_, _, _, _, text, lead, kids, _) =>
        WholeText(text) + LateText(lead) + IdealAll(kids) + [End(n.name)]
      case Closed(_, _, _, _, _) => [End(n.name)]
  }

  function IdealAll(ns: seq<Node>): seq<Event>
    decreases ns
  {
    if ns == [] then [] else Ideal(ns[0]) + LateText(ns[0].after) + IdealAll(ns[1..])
  }

  predicate NoLateText(s: string) { Blanks(Prose(s, false)) }

  // At any depth: no self-closed element, no prefix, no text that begins with a blank, and no text
  // behind a processing instruction or an element, blanks between tags aside.
  predicate Tidy(n: Node)
    decreases n
  {
    && n.Element? && n.prefix == "" && (Blanks(n.text) || !White(n.text[0]))
    && NoLateText(n.lead) && TidyAll(n.kids)
  }

  predicate TidyAll(ns: seq<Node>)
    decreases ns
  {
    ns == [] || (Tidy(ns[0]) && NoLateText(ns[0].after) && TidyAll(ns[1..]))
  }

  // ---- Three measures of a trace: its ends, its text, the names in its ends ----

  datatype Measure = Ends | Text | EndNames

  function Weigh(m: Measure, e: Event): nat {
    match m
    case Ends => if e.End? then 1 else 0
    case Text => if e.Data? then |e.text| else 0
    case EndNames => if e.End? then |e.tag| else 0
  }

  function Total(m: Measure, s: seq<Event>): nat {
    if s == [] then 0 else Weigh(m, s[0]) + Total(m, s[1..])
  }

  lemma {:induction false} TotalConcat(m: Measure, a: seq<Event>, b: seq<Event>)
    ensures Total(m, a + b) == Total(m, a) + Total(m, b)
    decreases |a|
  {
    if a == [] {
      assert a + b == b;
    } else {
      assert (a + b)[1..] == a[1..] + b;
      TotalConcat(m, a[1..], b);
    }
  }

  lemma {:induction false} TotalOne(m: Measure, e: Event)
    ensures Total(m, [e]) == Weigh(m, e)
  {
    assert [e][1..] == [];
  }

  // How much of a text is missing from the report: its end, as far as it has blanks in front.
  function TextLack(text: string): nat { if Blanks(text) then 0 else LeadingBlanks(text) }

  function LateLack(m: Measure, s: string): nat { Total(m, LateText(s)) }

  // How much a reported element falls short of the plain trace, by itself.
  function OwnLack(m: Measure, n: Node): int {
    match m
    case Ends => if n.Closed? then 1 else 0
    case Text => if n.Closed? then 0 else TextLack(n.text)
    case EndNames => if n.Closed? then |n.name| else |n.name| - |TagName(n)|
  }

  function Lack(m: Measure, n: Node): int
    decreases n
  {
    OwnLack(m, n) + if n.Closed? then 0 else LateLack(m, n.lead) + LackAll(m, n.kids)
  }

  function LackAll(m: Measure, ns: seq<Node>): int
    decreases ns
  {
    if ns == [] then 0 else Lack(m, ns[0]) + LateLack(m, ns[0].after) + LackAll(m, ns[1..])
  }

  lemma {:induction false} TextMeasured(m: Measure, text: string)
    ensures Total(m, WholeText(text)) == Total(m, TextTrace(text)) + if m == Text then TextLack(text) else 0
  {
    hide LeadingBlanks, Blanks;
    LeadingAll(text);
    var k := LeadingBlanks(text);
    TotalOne(m, Data(text));
    if k != |text| { TotalOne(m, Data(text[..|text| - k])); }
  }

  // Late text weighs only as text, and something unless there is none.
  lemma {:induction false} LateSigns(s: string)
    ensures LateLack(Ends, s) == LateLack(EndNames, s) == 0
    ensures LateLack(Text, s) == 0 <==> NoLateText(s)
  {
    hide Prose;
    var p := Prose(s, false);
    TotalOne(Ends, Data(p));
    TotalOne(Text, Data(p));
    TotalOne(EndNames, Data(p));
  }

  // Measures of both traces of an element, from their parts.
  lemma {:induction false} ElementTotals(m: Measure, n: Node)
    requires n.Element?
    ensures var head := Total(m, [Start(n.name)] + AttrTrace(n.atts));
            && Total(m, Ideal(n))
               == head + Total(m, WholeText(n.text)) + LateLack(m, n.lead) + Total(m, IdealAll(n.kids))
                  + Weigh(m, End(n.name))
            && Total(m, Trace(n))
               == head + Total(m, TextTrace(n.text)) + Total(m, TraceAll(n.kids)) + Weigh(m, End(TagName(n)))
  {
    hide WholeText, TextTrace, IdealAll, TraceAll, TagName, AttrTrace, Weigh, Total, LateText;
    var head := [Start(n.name)] + AttrTrace(n.atts);
    var a, b := WholeText(n.text), TextTrace(n.text);
    var c, d, l := IdealAll(n.kids), TraceAll(n.kids), LateText(n.lead);
    TotalConcat(m, head, a + l + c + [End(n.name)]);
    TotalConcat(m, a + l + c, [End(n.name)]);
    TotalConcat(m, a + l, c);
    TotalConcat(m, a, l);
    TotalOne(m, End(n.name));
    TotalConcat(m, head, b + d + [End(TagName(n))]);
    TotalConcat(m, b + d, [End(TagName(n))]);
    TotalConcat(m, b, d);
    TotalOne(m, End(TagName(n)));
  }

  lemma {:induction false} ClosedTotals(m: Measure, n: Node)
    requires n.Closed?
    ensures Total(m, Ideal(n)) == Total(m, Trace(n)) + Weigh(m, End(n.name))
  {
    hide AttrTrace, Weigh, Total;
    var head := [Start(n.name)] + AttrTrace(n.atts);
    TotalConcat(m, head, [End(n.name)]);
    TotalOne(m, End(n.name));
    assert Trace(n) == head;
  }

  lemma {:induction false} LackMeasured(m: Measure, n: Node)
    ensures Total(m, Ideal(n)) == Total(m, Trace(n)) + Lack(m, n)
    decreases n
  {
    hide Ideal, Trace, Total, TagName, TextLack, LateLack;
    if n.Closed? {
      ClosedTotals(m, n);
    } else {
      ElementTotals(m, n);
      TextMeasured(m, n.text);
      LackAllMeasured(m, n.kids);
    }
  }

  lemma {:induction false} LackAllMeasured(m: Measure, ns: seq<Node>)
    ensures Total(m, IdealAll(ns)) == Total(m, TraceAll(ns)) + LackAll(m, ns)
    decreases ns
  {
    hide Ideal, Trace, Total, Lack, LateText;
    if ns != [] {
      LackMeasured(m, ns[0]);
      LackAllMeasured(m, ns[1..]);
      TotalConcat(m, Ideal(ns[0]) + LateText(ns[0].after), IdealAll(ns[1..]));
      TotalConcat(m, Ideal(ns[0]), LateText(ns[0].after));
      TotalConcat(m, Trace(ns[0]), TraceAll(ns[1..]));
    }
  }

  // Ends and text are only ever missing; with every end there, end names are only ever too long.
  predicate Signs(ends: int, text: int, names: int) { ends >= 0 && text >= 0 && (ends == 0 ==> names <= 0) }

  lemma {:induction false} LackSigns(n: Node)
    ensures Signs(Lack(Ends, n), Lack(Text, n), Lack(EndNames, n))
    ensures Lack(Ends, n) == Lack(Text, n) == Lack(EndNames, n) == 0 ==> Tidy(n)
    decreases n
  {
    hide LateLack, NoLateText, Blanks, LeadingBlanks;
    if n.Element? {
      LackAllSigns(n.kids);
      LateSigns(n.lead);
      LeadingFirst(n.text);
      assert |TagName(n)| >= |n.name| && (|TagName(n)| == |n.name| ==> n.prefix == "");
    }
  }

  lemma {:induction false} LackAllSigns(ns: seq<Node>)
    ensures Signs(LackAll(Ends, ns), LackAll(Text, ns), LackAll(EndNames, ns))
    ensures LackAll(Ends, ns) == LackAll(Text, ns) == LackAll(EndNames, ns) == 0 ==> TidyAll(ns)
    decreases ns
  {
    hide LateLack, NoLateText;
    if ns != [] {
      LackSigns(ns[0]);
      LateSigns(ns[0].after);
      LackAllSigns(ns[1..]);
    }
  }

  lemma {:induction false} LeadingFirst(text: string)
    ensures text != "" && LeadingBlanks(text) == 0 ==> !White(text[0])
    ensures text == "" ==> Blanks(text)
  {
  }

  lemma {:induction false} TidyIsIdeal(n: Node)
    requires Tidy(n)
    ensures Trace(n) == Ideal(n)
    decreases n
  {
    hide Blanks, TextTrace, WholeText, AttrTrace, TraceAll, IdealAll, TidyAll;
    TextWhole(n.text);
    NoLate(n.lead);
    TidyAllIdeal(n.kids);
    assert TagName(n) == n.name;
  }

  lemma {:induction false} NoLate(s: string)
    requires NoLateText(s)
    ensures LateText(s) == []
  {
    hide Prose;
  }

  lemma {:induction false} TidyAllIdeal(ns: seq<Node>)
    requires TidyAll(ns)
    ensures TraceAll(ns) == IdealAll(ns)
    decreases ns
  {
    hide Tidy, Trace, Ideal, NoLateText, LateText;
    if ns != [] {
      TidyIsIdeal(ns[0]);
      NoLate(ns[0].after);
      TidyAllIdeal(ns[1..]);
    }
  }

  // The report is the plain preorder trace exactly for tidy trees.
  lemma {:induction false} IdealExactlyWhenTidy(ns: seq<Node>)
    ensures TraceAll(ns) == IdealAll(ns) <==> TidyAll(ns)
  {
    hide TraceAll, IdealAll, TidyAll, LackAll, Total;
    if TidyAll(ns) {
      TidyAllIdeal(ns);
    } else {
      LackAllMeasured(Ends, ns);
      LackAllMeasured(Text, ns);
      LackAllMeasured(EndNames, ns);
      LackAllSigns(ns);
    }
  }

  // So scanning a printed document gives the plain preorder trace exactly when its trees are tidy and
  // there is no text in front of them.
  lemma {:induction false} DocumentIdeal(prolog: string, ns: seq<Node>, past: char)
    requires Skippable(prolog) && AllGood(ns)
    ensures Parse(prolog + PrintAll(ns), past, 0) == LateText(prolog) + IdealAll(ns)
       <==> NoLateText(prolog) && TidyAll(ns)
  {
    hide Parse, PrintAll, TraceAll, IdealAll, TidyAll, AllGood, Skippable, LackAll, Total, Prose, Blanks;
    DocumentTrace(prolog, ns, past);
    IdealExactlyWhenTidy(ns);
    if NoLateText(prolog) {
      assert LateText(prolog) + IdealAll(ns) == IdealAll(ns);
    } else {
      LateSigns(prolog);
      LackAllMeasured(Text, ns);
      LackAllSigns(ns);
      TotalConcat(Text, LateText(prolog), IdealAll(ns));
    }
  }

  // ---- Text behind a child element is lost: <a><b>x</b>tail</a> ----

  const Child: Node := Element("", "b", [], "", "x", "", [], "tail")

  const LostTail: Node := Element("", "a", [], "", "", "", [Child], "")

  lemma {:induction false} TailIsProse()
    ensures LateText("tail") == [Data("tail")]
  {
    hide Prose;
    PlainProse("tail");
    assert !White("tail"[0]);
  }

  // Without processing instructions there is nothing to take out.
  lemma {:induction false} PlainProse(s: string)
    requires '<' !in s
    ensures Prose(s, false) == s
    decreases |s|
  {
    if s != "" {
      assert !Stops(Less, s[0]);
      PlainProse(s[1..]);
    }
  }

  lemma {:induction false} ChildGood()
    ensures Good(Child) && Print(Child) == "<b>x</b>tail"
  {
    assert AllGood([]) && PrintAll([]) == "";
  }

  lemma {:induction false} ChildTraces()
    ensures Trace(Child) == Ideal(Child) == [Start("b"), Data("x"), End("b")]
  {
    hide Prose, LateText, LeadingBlanks, Blanks;
    NothingLate();
    LetterWhole();
    assert TraceAll([]) == [] && IdealAll([]) == [];
  }

  lemma {:induction false} LetterWhole()
    ensures TextTrace("x") == WholeText("x") == [Data("x")]
  {
    assert !White("x"[0]);
    TextWhole("x");
  }

  lemma {:induction false} ParentShape()
    ensures AllGood([LostTail]) && PrintAll([LostTail]) == "<a><b>x</b>tail</a>"
    ensures TraceAll([LostTail]) == [Start("a"), Start("b"), Data("x"), End("b"), End("a")]
    ensures IdealAll([LostTail]) == [Start("a"), Start("b"), Data("x"), End("b"), Data("tail"), End("a")]
  {
    hide Good, Print, Trace, Ideal, LateText;
    ChildGood();
    ChildTraces();
    TailIsProse();
    OneNode(Child);
    NothingLate();
    ParentItself();
    OneNode(LostTail);
  }

  lemma {:induction false} NothingLate()
    ensures LateText("") == []
  {
  }

  lemma {:induction false} OneNode(n: Node)
    ensures AllGood([n]) == Good(n) && PrintAll([n]) == Print(n)
    ensures TraceAll([n]) == Trace(n) && IdealAll([n]) == Ideal(n) + LateText(n.after)
  {
    hide Good, Print, Trace, Ideal, LateText;
    assert [n][1..] == [];
    assert Print(n) + "" == Print(n) && Trace(n) + [] == Trace(n);
  }

  lemma {:induction false} ParentItself()
    requires AllGood([Child])
    ensures Good(LostTail) && Print(LostTail) == "<a>" + (PrintAll([Child]) + "</a>")
    ensures Trace(LostTail) == [Start("a")] + TraceAll([Child]) + [End("a")]
    ensures Ideal(LostTail) == [Start("a")] + IdealAll([Child]) + [End("a")]
  {
    hide AllGood, PrintAll, TraceAll, IdealAll, Prose;
    NothingLate();
  }

  lemma {:induction false} LostTailWitness(past: char)
    ensures Parse("<a><b>x</b>tail</a>", past, 0) == [Start("a"), Start("b"), Data("x"), End("b"), End("a")]
    ensures IdealAll([LostTail]) == [Start("a"), Start("b"), Data("x"), End("b"), Data("tail"), End("a")]
    ensures PrintAll([LostTail]) == "<a><b>x</b>tail</a>" && AllGood([LostTail])
  {
    hide AllGood, PrintAll, TraceAll, IdealAll, Parse;
    ParentShape();
    DocumentTrace("", [LostTail], past);
    assert "" + PrintAll([LostTail]) == PrintAll([LostTail]);
  }
}
