/** Printing a list of addresses as a header and scanning it again. */
module Rfc822RoundTrip {
  import opened Substrings
  import opened Rfc822

  // The pieces of an address field: a character without meaning of its own, a backslash with the
  // character it protects, a quoted string, blanks, a comment.
  datatype Bit = Letter(c: char) | Pair(c: char) | Str(words: string) | Gap(blanks: string) | Note(comment: string)

  // An address in the open, one in angle brackets between other pieces, or nothing between two commas.
  datatype Item =
    | Plain(bits: seq<Bit>)
    | Angled(phrase: seq<Bit>, inner: seq<Bit>, behind: seq<Bit>)
    | Nothing(bits: seq<Bit>)

  predicate Blank(c: char) { c == ' ' || c == '\t' }

  predicate White(c: char) { c in {' ', '\t', '\n', '\U{0B}', '\U{0C}', '\r'} }

  // Every newline begins a continuation line.
  predicate Folded(s: string) { forall i :: 0 <= i < |s| && s[i] == '\n' ==> i + 1 < |s| && Blank(s[i + 1]) }

  // The inside of a quoted string: a backslash protects any character behind it.
  predicate QuotedText(s: string) {
    s == ""
    || (s[0] == '\\' && |s| >= 2 && QuotedText(s[2..]))
    || (s[0] == '\n' && |s| >= 2 && Blank(s[1]) && QuotedText(s[1..]))
    || (s[0] !in {'\\', '\"', '\n'} && QuotedText(s[1..]))
  }

  function Deeper(c: char, d: int): int {
    if c == '(' then d + 1 else if c == ')' then d - 1 else d
  }

  // The inside of a comment: its parentheses balance.
  predicate Balanced(s: string, d: int) {
    if s == "" then d == 1 else Deeper(s[0], d) > 0 && Balanced(s[1..], Deeper(s[0], d))
  }

  predicate GoodBit(b: Bit) {
    match b
    case Letter(c) => c !in {',', '(', '<', '\"', '\\'} && !White(c)
    case Pair(_) => true
    case Str(words) => QuotedText(words)
    case Gap(blanks) => Folded(blanks) && forall i :: 0 <= i < |blanks| ==> White(blanks[i])
    case Note(comment) => Folded(comment) && Balanced(comment, 1)
  }

  // Between angle brackets blanks and parentheses are nothing special.
  predicate InnerBit(b: Bit) {
    match b
    case Letter(c) => c !in {'<', '>', '\"', '\\', '\n'}
    case Pair(_) => true
    case Str(words) => QuotedText(words)
    case Gap(blanks) => Folded(blanks) && forall i :: 0 <= i < |blanks| ==> White(blanks[i])
    case Note(_) => false
  }

  predicate AllBits(bits: seq<Bit>) { forall k :: 0 <= k < |bits| ==> GoodBit(bits[k]) }

  predicate AllInner(bits: seq<Bit>) { forall k :: 0 <= k < |bits| ==> InnerBit(bits[k]) }

  predicate AllIdle(bits: seq<Bit>) { forall k :: 0 <= k < |bits| ==> bits[k].Gap? || bits[k].Note? }

  predicate Lettered(bits: seq<Bit>) { exists k :: 0 <= k < |bits| && bits[k].Letter? }

  function InQuotes(words: string): string { "\"" + (words + "\"") }

  function InParens(comment: string): string { "(" + (comment + ")") }

  function Text(b: Bit): string {
    match b
    case Letter(c) => [c]
    case Pair(c) => "\\" + [c]
    case Str(words) => InQuotes(words)
    case Gap(blanks) => blanks
    case Note(comment) => InParens(comment)
  }

  function TextAll(bits: seq<Bit>): string {
    if bits == [] then "" else Text(bits[0]) + TextAll(bits[1..])
  }

  // What belongs to an address in the open: everything but blanks and comments.
  function Meant(bits: seq<Bit>): string {
    if bits == [] then ""
    else (if bits[0].Gap? || bits[0].Note? then "" else Text(bits[0])) + Meant(bits[1..])
  }

  // The part of a text that the buffer can hold.
  function Held(w: string): string {
    if |w| <= 8191 then w else w[..8191]
  }

  predicate EndsSolid(w: string) { w != "" && !White(w[|w| - 1]) }

  // An address in the open has a plain character and does not end in a blank.
  predicate Good(i: Item) {
    match i
    case Plain(bits) =>
      AllBits(bits) && Lettered(bits) && EndsSolid(Held(Meant(bits)))
    case Angled(phrase, inner, behind) =>
      AllBits(phrase) && AllInner(inner) && AllBits(behind) && AllIdle(behind)
    case Nothing(bits) => AllBits(bits) && AllIdle(bits)
  }

  predicate AllGood(items: seq<Item>) { forall k :: 0 <= k < |items| ==> Good(items[k]) }

  function Print(i: Item): string {
    match i
    case Plain(bits) => TextAll(bits)
    case Angled(phrase, inner, behind) => TextAll(phrase) + ("<" + (TextAll(inner) + (">" + TextAll(behind))))
    case Nothing(bits) => TextAll(bits)
  }

  function PrintAll(items: seq<Item>): string {
    if items == [] then ""
    else Print(items[0]) + if |items| == 1 then "" else "," + PrintAll(items[1..])
  }

  // In brackets everything belongs to the address; of a long one the buffer holds the beginning.
  function Address(i: Item): seq<string> {
    match i
    case Plain(bits) => [Held(Meant(bits))]
    case Angled(_, inner, _) => [Held(TextAll(inner))]
    case Nothing(_) => []
  }

  function Addresses(items: seq<Item>): seq<string> {
    if items == [] then [] else Address(items[0]) + Addresses(items[1..])
  }

  // ---- Runs of the scanner over one kind of text ----

  lemma {:induction false} OneStep(h: string, s: State, t: State)
    requires s.hp <= |h| && Step(h, s) == More(t)
    ensures t.hp <= |h| && Call(h, s) == Call(h, t)
  {
    hide Step;
    StepAdvances(h, s);
  }

  // Store a whole string.
  function KeepAll(acc: string, w: string): string
    decreases |w|
  {
    if w == "" then acc else KeepAll(Keep(acc, w[0]), w[1..])
  }

  lemma {:induction false} KeepsHeld(acc: string, w: string)
    requires |acc| < BUFSIZ
    ensures KeepAll(acc, w) == Held(acc + w)
    decreases |w|
  {
    if w == "" {
      assert acc + w == acc;
    } else {
      var next := Keep(acc, w[0]);
      KeepsHeld(next, w[1..]);
      if |acc| < BUFSIZ - 1 {
        assert next + w[1..] == acc + w;
      } else {
        assert (acc + w[1..])[..BUFSIZ - 1] == acc == (acc + w)[..BUFSIZ - 1];
        assert Held(acc + w[1..]) == acc;
      }
    }
  }

  lemma {:induction false} KeptFromStart(w: string)
    ensures KeepAll("", w) == Held(w)
  {
    KeepsHeld("", w);
    assert "" + w == w;
  }

  lemma {:induction false} KeepConcat(acc: string, a: string, b: string)
    ensures KeepAll(acc, a + b) == KeepAll(KeepAll(acc, a), b)
    decreases |a|
  {
    hide Keep;
    if a == "" {
      assert a + b == b;
    } else {
      assert (a + b)[1..] == a[1..] + b;
      KeepConcat(Keep(acc, a[0]), a[1..], b);
    }
  }

  lemma {:induction false} KeepOne(acc: string, c: char)
    ensures KeepAll(acc, [c]) == Keep(acc, c)
  {
    assert [c][1..] == "";
  }

  // The first character and the rest.
  lemma {:induction false} Peel(h: string, i: nat, w: string)
    requires w != "" && Sub(h, i, w)
    ensures i < |h| && h[i] == w[0] && Sub(h, i + 1, w[1..])
  {
    assert w == [w[0]] + w[1..];
    SubSplit(h, i, [w[0]], w[1..]);
    SubAt(h, i, w, 0);
  }

  // The header goes on at a folded text.
  lemma {:induction false} GoesOn(h: string, i: nat, w: string)
    requires w != "" && Sub(h, i, w) && Folded(w)
    ensures !HeaderEnd(h, i) && Folded(w[1..])
  {
    SubAt(h, i, w, 0);
    if w[0] == '\n' { SubAt(h, i, w, 1); }
    assert forall k :: 0 <= k < |w[1..]| ==> w[1..][k] == w[k + 1];
  }

  lemma {:induction false} FieldStep(h: string, s: State)
    requires s.mode == StartHdr && s.hp < |h| && h[s.hp] !in {':', '\\', '\n'}
    ensures Step(h, s) == More(s.(hp := s.hp + 1))
  {
  }

  lemma {:induction false} RunField(h: string, s: State, w: string)
    requires s.mode == StartHdr && Sub(h, s.hp, w) && forall k :: 0 <= k < |w| ==> w[k] !in {':', '\\', '\n'}
    ensures s.hp + |w| <= |h| && Call(h, s) == Call(h, s.(hp := s.hp + |w|))
    decreases |w|
  {
    hide Step, Call, Measure;
    if w != "" {
      Peel(h, s.hp, w);
      FieldStep(h, s);
      var t := s.(hp := s.hp + 1);
      OneStep(h, s, t);
      RunField(h, t, w[1..]);
    }
  }

  // Outside quotes, comments and brackets.
  predicate Open(s: State) { s.mode == SkipJunk || s.mode == BareAddress }

  lemma {:induction false} BlankStep(h: string, s: State)
    requires Open(s) && s.hp < |h| && !HeaderEnd(h, s.hp) && White(h[s.hp])
    ensures Step(h, s) == More(s.(hp := s.hp + 1))
  {
  }

  lemma {:induction false} RunGap(h: string, s: State, w: string)
    requires Open(s) && Sub(h, s.hp, w) && Folded(w) && forall i :: 0 <= i < |w| ==> White(w[i])
    ensures s.hp + |w| <= |h| && Call(h, s) == Call(h, s.(hp := s.hp + |w|))
    decreases |w|
  {
    hide Step, Call, Sub, Measure, Folded, White, HeaderEnd;
    if w == "" {
      SubIs(h, s.hp, w);
    } else {
      Peel(h, s.hp, w);
      GoesOn(h, s.hp, w);
      BlankStep(h, s);
      var t := s.(hp := s.hp + 1);
      OneStep(h, s, t);
      RunGap(h, t, w[1..]);
    }
  }

  // Text that is stored as it is: in brackets anything but '<', '>', quotes and backslashes.
  predicate BracketText(s: string) { Folded(s) && forall i :: 0 <= i < |s| ==> s[i] !in {'>', '<', '\"', '\\'} }

  lemma {:induction false} BracketStep(h: string, s: State)
    requires s.mode == InsideBrackets && s.hp < |h| && !HeaderEnd(h, s.hp) && h[s.hp] !in {'>', '<', '\"', '\\'}
    ensures Step(h, s) == More(s.(hp := s.hp + 1, acc := Keep(s.acc, h[s.hp])))
  {
  }

  lemma {:induction false} RunBrackets(h: string, s: State, w: string)
    requires s.mode == InsideBrackets && Sub(h, s.hp, w) && BracketText(w)
    ensures s.hp + |w| <= |h|
    ensures Call(h, s) == Call(h, s.(hp := s.hp + |w|, acc := KeepAll(s.acc, w)))
    decreases |w|
  {
    hide Keep, Step, Call, Measure, Folded, HeaderEnd;
    if w != "" {
      Peel(h, s.hp, w);
      GoesOn(h, s.hp, w);
      BracketStep(h, s);
      var t := s.(hp := s.hp + 1, acc := Keep(s.acc, w[0]));
      OneStep(h, s, t);
      RunBrackets(h, t, w[1..]);
    }
  }

  lemma {:induction false} QuoteStep(h: string, s: State)
    requires s.mode == InsideDquote && s.hp < |h| && !HeaderEnd(h, s.hp) && h[s.hp] !in {'\\', '\"'}
    ensures Step(h, s) == More(s.(hp := s.hp + 1, acc := Keep(s.acc, h[s.hp])))
  {
  }

  lemma {:induction false} EscapeStep(h: string, s: State)
    requires s.mode in {SkipJunk, BareAddress, InsideDquote, InsideBrackets}
    requires s.hp + 1 < |h| && h[s.hp] == '\\'
    ensures Step(h, s) == More(s.(hp := s.hp + 2, acc := Keep(Keep(s.acc, h[s.hp]), h[s.hp + 1])))
  {
  }

  lemma {:induction false} RunPair(h: string, s: State, c: char)
    requires s.mode in {SkipJunk, BareAddress, InsideDquote, InsideBrackets} && Sub(h, s.hp, "\\" + [c])
    ensures s.hp + 2 <= |h|
    ensures Call(h, s) == Call(h, s.(hp := s.hp + 2, acc := KeepAll(s.acc, "\\" + [c])))
  {
    hide Keep, Step, Call, Measure;
    var w := "\\" + [c];
    SubAt(h, s.hp, w, 0);
    SubAt(h, s.hp, w, 1);
    EscapeStep(h, s);
    KeepConcat(s.acc, "\\", [c]);
    KeepOne(s.acc, '\\');
    KeepOne(Keep(s.acc, '\\'), c);
    OneStep(h, s, s.(hp := s.hp + 2, acc := Keep(Keep(s.acc, '\\'), c)));
  }

  lemma {:induction false} RunQuoted(h: string, s: State, w: string)
    requires s.mode == InsideDquote && Sub(h, s.hp, w) && QuotedText(w)
    ensures s.hp + |w| <= |h|
    ensures Call(h, s) == Call(h, s.(hp := s.hp + |w|, acc := KeepAll(s.acc, w)))
    decreases |w|
  {
    hide Keep, Step, Call, Measure, HeaderEnd;
    if w != "" {
      Peel(h, s.hp, w);
      if w[0] == '\\' {
        assert w == ("\\" + [w[1]]) + w[2..];
        SubSplit(h, s.hp, "\\" + [w[1]], w[2..]);
        RunPair(h, s, w[1]);
        KeepConcat(s.acc, "\\" + [w[1]], w[2..]);
        RunQuoted(h, s.(hp := s.hp + 2, acc := KeepAll(s.acc, "\\" + [w[1]])), w[2..]);
      } else {
        QuotedGoesOn(h, s.hp, w);
        QuoteStep(h, s);
        var t := s.(hp := s.hp + 1, acc := Keep(s.acc, w[0]));
        OneStep(h, s, t);
        RunQuoted(h, t, w[1..]);
      }
    }
  }

  lemma {:induction false} QuotedGoesOn(h: string, i: nat, w: string)
    requires w != "" && w[0] != '\\' && Sub(h, i, w) && QuotedText(w)
    ensures i < |h| && !HeaderEnd(h, i) && h[i] !in {'\\', '\"'}
  {
    SubAt(h, i, w, 0);
    if w[0] == '\n' { SubAt(h, i, w, 1); }
  }

  lemma {:induction false} CommentStep(h: string, s: State)
    requires s.mode == InsideParens && s.hp < |h| && !HeaderEnd(h, s.hp) && Deeper(h[s.hp], s.depth) > 0
    ensures Step(h, s) == More(s.(hp := s.hp + 1, depth := Deeper(h[s.hp], s.depth)))
  {
  }

  lemma {:induction false} RunComment(h: string, s: State, w: string)
    requires s.mode == InsideParens && s.depth > 0 && Sub(h, s.hp, w) && Balanced(w, s.depth) && Folded(w)
    ensures s.hp + |w| <= |h| && Call(h, s) == Call(h, s.(hp := s.hp + |w|, depth := 1))
    decreases |w|
  {
    hide Step, Call, Deeper, Measure, Folded, HeaderEnd;
    if w != "" {
      Peel(h, s.hp, w);
      GoesOn(h, s.hp, w);
      CommentStep(h, s);
      var t := s.(hp := s.hp + 1, depth := Deeper(w[0], s.depth));
      OneStep(h, s, t);
      RunComment(h, t, w[1..]);
    }
  }

  // ---- Runs over pieces ----

  lemma {:induction false} OpenQuote(h: string, s: State)
    requires (Open(s) || s.mode == InsideBrackets) && s.hp < |h| && h[s.hp] == '\"'
    ensures Call(h, s) == Call(h, s.(hp := s.hp + 1, oldmode := s.mode, mode := InsideDquote, acc := Keep(s.acc, '\"')))
  {
    hide Call, Measure;
    OneStep(h, s, s.(hp := s.hp + 1, oldmode := s.mode, mode := InsideDquote, acc := Keep(s.acc, '\"')));
  }

  lemma {:induction false} CloseQuote(h: string, s: State)
    requires s.mode == InsideDquote && s.hp < |h| && h[s.hp] == '\"'
    ensures Call(h, s) == Call(h, s.(hp := s.hp + 1, mode := s.oldmode, acc := Keep(s.acc, '\"')))
  {
    hide Call, Measure;
    OneStep(h, s, s.(hp := s.hp + 1, mode := s.oldmode, acc := Keep(s.acc, '\"')));
  }

  // A whole quoted string is kept, quotes included.
  lemma {:induction false} RunStr(h: string, s: State, words: string)
    requires (Open(s) || s.mode == InsideBrackets) && Sub(h, s.hp, InQuotes(words)) && QuotedText(words)
    ensures var w := InQuotes(words);
            && s.hp + |w| <= |h|
            && Call(h, s) == Call(h, s.(hp := s.hp + |w|, oldmode := s.mode, acc := KeepAll(s.acc, w)))
  {
    hide Call, Sub, KeepAll, QuotedText, Keep, Measure;
    SubSplit(h, s.hp, "\"", words + "\"");
    SubAt(h, s.hp, "\"", 0);
    OpenQuote(h, s);
    var t := s.(hp := s.hp + 1, oldmode := s.mode, mode := InsideDquote, acc := Keep(s.acc, '\"'));
    SubSplit(h, t.hp, words, "\"");
    RunQuoted(h, t, words);
    var u := t.(hp := t.hp + |words|, acc := KeepAll(t.acc, words));
    SubAt(h, u.hp, "\"", 0);
    CloseQuote(h, u);
    KeepConcat(s.acc, "\"", words + "\"");
    KeepConcat(KeepAll(s.acc, "\""), words, "\"");
    KeepOne(s.acc, '\"');
    KeepOne(u.acc, '\"');
  }

  lemma {:induction false} OpenParen(h: string, s: State)
    requires Open(s) && s.hp < |h| && h[s.hp] == '('
    ensures Call(h, s) == Call(h, s.(hp := s.hp + 1, depth := 1, oldmode := s.mode, mode := InsideParens))
  {
    hide Call, Measure;
    OneStep(h, s, s.(hp := s.hp + 1, depth := 1, oldmode := s.mode, mode := InsideParens));
  }

  lemma {:induction false} CloseParen(h: string, s: State)
    requires s.mode == InsideParens && s.depth == 1 && s.hp < |h| && h[s.hp] == ')'
    ensures Call(h, s) == Call(h, s.(hp := s.hp + 1, depth := 0, mode := s.oldmode))
  {
    hide Call, Measure;
    OneStep(h, s, s.(hp := s.hp + 1, depth := 0, mode := s.oldmode));
  }

  // A whole comment leaves everything but the cursor as it was.
  lemma {:induction false} RunNote(h: string, s: State, comment: string)
    requires Open(s) && Sub(h, s.hp, InParens(comment)) && Folded(comment) && Balanced(comment, 1)
    ensures var w := InParens(comment);
            s.hp + |w| <= |h| && Call(h, s) == Call(h, s.(hp := s.hp + |w|, depth := 0, oldmode := s.mode))
  {
    hide Call, Sub, Balanced, Measure, Folded;
    SubSplit(h, s.hp, "(", comment + ")");
    SubAt(h, s.hp, "(", 0);
    OpenParen(h, s);
    var t := s.(hp := s.hp + 1, depth := 1, oldmode := s.mode, mode := InsideParens);
    SubSplit(h, t.hp, comment, ")");
    SubAt(h, t.hp + |comment|, ")", 0);
    RunComment(h, t, comment);
    CloseParen(h, t.(hp := t.hp + |comment|));
  }

  // The pushed-back first letter, and any later one.
  lemma {:induction false} RunLetter(h: string, s: State, c: char)
    requires Open(s) && s.hp < |h| && h[s.hp] == c && GoodBit(Letter(c))
    ensures Call(h, s) == Call(h, s.(hp := s.hp + 1, mode := BareAddress, acc := Keep(s.acc, c)))
  {
    hide Call, Measure;
    var t := s.(mode := BareAddress);
    if s.mode == SkipJunk { OneStep(h, s, t); }
    OneStep(h, t, t.(hp := s.hp + 1, acc := Keep(s.acc, c)));
  }

  function MeantOne(b: Bit): string { if b.Gap? || b.Note? then "" else Text(b) }

  lemma {:induction false} BitRead(h: string, s: State, b: Bit) returns (t: State)
    requires Open(s) && s.depth == 0 && GoodBit(b) && Sub(h, s.hp, Text(b))
    ensures s.hp <= |h| && t.hp == s.hp + |Text(b)| <= |h| && t.depth == 0 && t.acc == KeepAll(s.acc, MeantOne(b))
    ensures t.mode == if b.Letter? then BareAddress else s.mode
    ensures Call(h, s) == Call(h, t)
  {
    hide Call, Sub, Measure, QuotedText, Folded, Balanced, Keep, IsSpace, InQuotes, InParens;
    match b
    case Letter(c) =>
      SubAt(h, s.hp, [c], 0);
      RunLetter(h, s, c);
      KeepOne(s.acc, c);
      t := s.(hp := s.hp + 1, mode := BareAddress, acc := Keep(s.acc, c));
    case Pair(c) =>
      RunPair(h, s, c);
      t := s.(hp := s.hp + 2, acc := KeepAll(s.acc, Text(b)));
    case Str(words) =>
      RunStr(h, s, words);
      t := s.(hp := s.hp + |Text(b)|, oldmode := s.mode, acc := KeepAll(s.acc, Text(b)));
    case Gap(blanks) =>
      RunGap(h, s, blanks);
      t := s.(hp := s.hp + |blanks|);
    case Note(comment) =>
      RunNote(h, s, comment);
      t := s.(hp := s.hp + |Text(b)|, depth := 0, oldmode := s.mode);
  }

  lemma {:induction false} BitsRead(h: string, s: State, bits: seq<Bit>) returns (t: State)
    requires Open(s) && s.depth == 0 && AllBits(bits) && Sub(h, s.hp, TextAll(bits))
    ensures s.hp <= |h| && t.hp == s.hp + |TextAll(bits)| <= |h| && t.depth == 0 && t.acc == KeepAll(s.acc, Meant(bits))
    ensures t.mode == if Lettered(bits) then BareAddress else s.mode
    ensures Call(h, s) == Call(h, t)
    decreases |bits|
  {
    hide Call, Sub, Measure, GoodBit, Text, KeepAll;
    if bits == [] {
      SubIs(h, s.hp, "");
      NothingKept(s.acc);
      t := s;
    } else {
      SubSplit(h, s.hp, Text(bits[0]), TextAll(bits[1..]));
      var u := BitRead(h, s, bits[0]);
      t := BitsRead(h, u, bits[1..]);
      KeepConcat(s.acc, MeantOne(bits[0]), Meant(bits[1..]));
      FirstLettered(bits);
    }
  }

  lemma {:induction false} NothingKept(acc: string)
    ensures KeepAll(acc, "") == acc
  {
  }

  lemma {:induction false} FirstLettered(bits: seq<Bit>)
    requires bits != []
    ensures Lettered(bits) <==> bits[0].Letter? || Lettered(bits[1..])
  {
    if Lettered(bits) && !bits[0].Letter? {
      var k :| 0 <= k < |bits| && bits[k].Letter?;
      assert bits[1..][k - 1].Letter?;
    }
    if Lettered(bits[1..]) {
      var k :| 0 <= k < |bits[1..]| && bits[1..][k].Letter?;
      assert bits[k + 1].Letter?;
    }
  }

  lemma {:induction false} InnerRead(h: string, s: State, b: Bit) returns (t: State)
    requires s.mode == InsideBrackets && InnerBit(b) && Sub(h, s.hp, Text(b))
    ensures s.hp <= |h| && t.hp == s.hp + |Text(b)| <= |h| && t.acc == KeepAll(s.acc, Text(b))
    ensures t.mode == InsideBrackets && Call(h, s) == Call(h, t)
  {
    hide Call, Sub, Measure, QuotedText, Keep, InQuotes;
    match b {
      case Letter(c) => RunBrackets(h, s, [c]);
      case Pair(c) => RunPair(h, s, c);
      case Str(words) => RunStr(h, s, words);
      case Gap(blanks) => RunBrackets(h, s, blanks);
    }
    t := s.(hp := s.hp + |Text(b)|, acc := KeepAll(s.acc, Text(b)));
    if b.Str? { t := t.(oldmode := s.mode); }
  }

  lemma {:induction false} InnersRead(h: string, s: State, bits: seq<Bit>) returns (t: State)
    requires s.mode == InsideBrackets && AllInner(bits) && Sub(h, s.hp, TextAll(bits))
    ensures s.hp <= |h| && t.hp == s.hp + |TextAll(bits)| <= |h| && t.acc == KeepAll(s.acc, TextAll(bits))
    ensures t.mode == InsideBrackets && Call(h, s) == Call(h, t)
    decreases |bits|
  {
    hide Call, Sub, Measure, InnerBit, Text, KeepAll;
    if bits == [] {
      SubIs(h, s.hp, "");
      NothingKept(s.acc);
      t := s;
    } else {
      SubSplit(h, s.hp, Text(bits[0]), TextAll(bits[1..]));
      var u := InnerRead(h, s, bits[0]);
      t := InnersRead(h, u, bits[1..]);
      KeepConcat(s.acc, Text(bits[0]), TextAll(bits[1..]));
    }
  }

  // ---- One item ----

  // An item ends before a comma or the end of the header.
  predicate Ends(h: string, z: nat) {
    z < |h| && (h[z] == ',' || HeaderEnd(h, z))
  }

  // Between two items, or done.
  predicate Ready(h: string, t: State) {
    t.acc == "" && t.hp <= |h| && (t.mode == SkipJunk || (t.mode == EnditAll && HeaderEnd(h, t.hp)))
  }

  // The calls from `s` return `found` and then what the calls from `t` return.
  ghost predicate Returns(h: string, s: State, found: seq<string>, t: State) {
    && s.hp <= |h| && t.hp <= |h|
    && Collect(h, s) == Listing(found + Collect(h, t).found, Collect(h, t).fault)
  }

  lemma {:induction false} CollectsOne(h: string, s: State, u: State)
    requires s.hp <= |h| && u.hp <= |h| && Call(h, Enter(s)) == Call(h, u) && Call(h, u).Found?
    ensures Returns(h, s, [Call(h, u).address], Call(h, u).s)
  {
    hide Call, Measure;
  }

  lemma {:induction false} CollectsOn(h: string, s: State, u: State)
    requires s.hp <= |h| && u.hp <= |h| && Call(h, Enter(s)) == Call(h, u) && u.depth == 0
    ensures Returns(h, s, [], u)
  {
    hide Call, Measure;
    assert Enter(u) == u;
  }

  lemma {:induction false} OpenBracket(h: string, s: State)
    requires Open(s) && s.hp < |h| && h[s.hp] == '<'
    ensures Call(h, s) == Call(h, s.(hp := s.hp + 1, mode := InsideBrackets, acc := ""))
  {
    hide Call, Measure;
    OneStep(h, s, s.(hp := s.hp + 1, mode := InsideBrackets, acc := ""));
  }

  lemma {:induction false} CloseBracket(h: string, s: State)
    requires s.mode == InsideBrackets && s.hp < |h| && h[s.hp] == '>'
    ensures Call(h, s) == Found(s.acc, s.(hp := s.hp + 1, mode := SkipJunk, acc := ""))
  {
  }

  lemma {:induction false} BareTail(h: string, s: State)
    requires s.mode == BareAddress && EndsSolid(s.acc) && Ends(h, s.hp)
    ensures var r := Call(h, s); r.Found? && r.address == s.acc && r.s.hp == s.hp && Ready(h, r.s)
  {
    assert TrimEnd(s.acc) == s.acc;
  }

  lemma {:induction false} PlainRead(h: string, s: State, bits: seq<Bit>) returns (t: State)
    requires Good(Plain(bits)) && s.mode == SkipJunk && s.acc == "" && Sub(h, s.hp, TextAll(bits))
    requires Ends(h, s.hp + |TextAll(bits)|)
    ensures Ready(h, t) && t.hp == s.hp + |TextAll(bits)| && Returns(h, s, [Held(Meant(bits))], t)
  {
    hide Call, Sub, Ends, AllBits, Measure, KeepAll, Returns, Ready, Held;
    var u := BitsRead(h, Enter(s), bits);
    KeptFromStart(Meant(bits));
    BareTail(h, u);
    CollectsOne(h, s, u);
    t := Call(h, u).s;
  }

  // The angle brackets and what is between them.
  lemma {:induction false} BracketTail(h: string, s: State, inner: seq<Bit>)
    requires Open(s) && Sub(h, s.hp, "<" + (TextAll(inner) + ">"))
    requires AllInner(inner)
    ensures s.hp <= |h|
    ensures var r := Call(h, s);
            && r.Found? && r.address == Held(TextAll(inner)) && r.s.hp == s.hp + |TextAll(inner)| + 2
            && r.s.mode == SkipJunk && r.s.acc == ""
  {
    hide Step, Sub, AllInner, Call, Measure, KeepAll, TextAll;
    var addr := TextAll(inner);
    SubSplit(h, s.hp, "<", addr + ">");
    SubAt(h, s.hp, "<", 0);
    OpenBracket(h, s);
    var t := s.(hp := s.hp + 1, mode := InsideBrackets, acc := "");
    SubSplit(h, t.hp, addr, ">");
    SubAt(h, t.hp + |addr|, ">", 0);
    var u := InnersRead(h, t, inner);
    KeptFromStart(addr);
    CloseBracket(h, u);
  }

  lemma {:induction false} IdleMeansNothing(bits: seq<Bit>)
    requires AllIdle(bits)
    ensures Meant(bits) == "" && !Lettered(bits)
    decreases |bits|
  {
    if bits != [] { IdleMeansNothing(bits[1..]); }
  }

  lemma {:induction false} IdleRead(h: string, s: State, bits: seq<Bit>) returns (t: State)
    requires AllBits(bits) && AllIdle(bits) && s.mode == SkipJunk && s.acc == "" && Sub(h, s.hp, TextAll(bits))
    ensures t.mode == SkipJunk && t.acc == "" && t.hp == s.hp + |TextAll(bits)| <= |h| && Returns(h, s, [], t)
  {
    hide Call, Sub, AllBits, Measure, Returns, AllIdle, Lettered, Meant;
    IdleMeansNothing(bits);
    t := BitsRead(h, Enter(s), bits);
    NothingKept("");
    CollectsOn(h, s, t);
  }

  lemma {:induction false} AngledRead(h: string, s: State, item: Item) returns (t: State)
    requires Good(item) && item.Angled? && s.mode == SkipJunk && s.acc == "" && Sub(h, s.hp, Print(item))
    ensures t.mode == SkipJunk && t.acc == "" && t.hp == s.hp + |Print(item)| <= |h|
    ensures Returns(h, s, [Held(TextAll(item.inner))], t)
  {
    hide Call, Sub, AllBits, AllInner, AllIdle, Measure, KeepAll, TextAll, Returns, Held, Meant, Lettered;
    var addr, tail := TextAll(item.inner), TextAll(item.behind);
    SubSplit(h, s.hp, TextAll(item.phrase), "<" + (addr + (">" + tail)));
    var u := BitsRead(h, Enter(s), item.phrase);
    Regroup(addr, tail);
    SubSplit(h, u.hp, "<" + (addr + ">"), tail);
    BracketTail(h, u, item.inner);
    CollectsOne(h, s, u);
    var v := Call(h, u).s;
    t := IdleRead(h, v, item.behind);
    ReturnsOn(h, s, [Held(addr)], v, t);
  }

  lemma {:induction false} Regroup(a: string, b: string)
    ensures "<" + (a + (">" + b)) == ("<" + (a + ">")) + b
  {
  }

  lemma {:induction false} ReturnsOn(h: string, s: State, a: seq<string>, t: State, u: State)
    requires Returns(h, s, a, t) && Returns(h, t, [], u)
    ensures Returns(h, s, a, u)
  {
    hide Collect;
    assert [] + Collect(h, u).found == Collect(h, u).found;
  }

  // An item, in its place in any header: its address is returned, and the next call goes on behind it.
  lemma {:induction false} ItemRead(h: string, s: State, item: Item) returns (t: State)
    requires Good(item) && s.mode == SkipJunk && s.acc == "" && Sub(h, s.hp, Print(item))
    requires Ends(h, s.hp + |Print(item)|)
    ensures Ready(h, t) && t.hp == s.hp + |Print(item)| && Returns(h, s, Address(item), t)
  {
    hide Sub, Ends, Returns, AllBits, AllInner, AllIdle, Lettered, Meant, TextAll, Held, EndsSolid, HeaderEnd;
    match item
    case Plain(bits) => t := PlainRead(h, s, bits);
    case Angled(_, _, _) => t := AngledRead(h, s, item);
    case Nothing(bits) => t := IdleRead(h, s, bits);
  }

  // ---- The whole header ----

  // Nothing is left to find behind the last item.
  lemma {:induction false} CollectsNothing(h: string, s: State)
    requires s.hp < |h| && s.acc == "" && HeaderEnd(h, s.hp) && (s.mode == SkipJunk || s.mode == EnditAll)
    ensures Collect(h, s) == Listing([], NoFault)
  {
  }

  lemma {:induction false} CommaSkipped(h: string, s: State)
    requires s.hp < |h| && h[s.hp] == ',' && Ready(h, s)
    ensures s.mode == SkipJunk && Returns(h, s, [], s.(hp := s.hp + 1))
  {
    hide Call, Measure;
    OneStep(h, Enter(s), Enter(s.(hp := s.hp + 1)));
  }

  lemma {:induction false} ReturnsThen(h: string, s: State, a: seq<string>, t: State, b: seq<string>)
    requires Returns(h, s, a, t) && Collect(h, t) == Listing(b, NoFault)
    ensures Collect(h, s) == Listing(a + b, NoFault)
  {
    hide Collect;
  }

  lemma {:induction false} ItemsRead(h: string, s: State, items: seq<Item>)
    requires AllGood(items) && s.mode == SkipJunk && s.acc == "" && Sub(h, s.hp, PrintAll(items))
    requires HeaderEnd(h, s.hp + |PrintAll(items)|)
    ensures s.hp <= |h| && Collect(h, s) == Listing(Addresses(items), NoFault)
    decreases |items|
  {
    hide Call, Sub, Collect, Good, Print, HeaderEnd, Measure, Address, Returns;
    EndInside(h, s.hp + |PrintAll(items)|);
    if items == [] {
      CollectsNothing(h, s);
    } else {
      var own := Print(items[0]);
      var more := if |items| == 1 then "" else "," + PrintAll(items[1..]);
      SubSplit(h, s.hp, own, more);
      if |items| > 1 {
        SubSplit(h, s.hp + |own|, ",", PrintAll(items[1..]));
        SubAt(h, s.hp + |own|, ",", 0);
      }
      var t := ItemRead(h, s, items[0]);
      if |items| == 1 {
        CollectsNothing(h, t);
        assert Addresses(items[1..]) == [];
      } else {
        CommaSkipped(h, t);
        ItemsRead(h, t.(hp := t.hp + 1), items[1..]);
        ReturnsThen(h, t, [], t.(hp := t.hp + 1), Addresses(items[1..]));
        assert [] + Addresses(items[1..]) == Addresses(items[1..]);
      }
      ReturnsThen(h, s, Address(items[0]), t, Addresses(items[1..]));
    }
  }

  lemma {:induction false} EndInside(h: string, z: nat)
    requires HeaderEnd(h, z)
    ensures z < |h|
  {
  }

  predicate FieldName(w: string) { forall k :: 0 <= k < |w| ==> w[k] !in {':', '\\', '\n'} }

  lemma {:induction false} EndsHere(h: string, z: nat, rest: string)
    requires Sub(h, z, "\n" + rest) && (rest == "" || !Blank(rest[0])) && |h| == z + 1 + |rest|
    ensures HeaderEnd(h, z)
  {
    SubAt(h, z, "\n" + rest, 0);
    if rest != "" { SubAt(h, z, "\n" + rest, 1); }
  }

  // A header of any addresses, on any number of lines, whatever follows it and whatever the scanner
  // did before: it ends at the first newline that no continuation line follows, the recipients are
  // exactly those addresses, in order, and nothing is touched out of bounds.
  lemma {:induction false} HeaderRoundTrip(field: string, items: seq<Item>, rest: string, oldmode: Mode)
    requires FieldName(field) && AllGood(items)
    requires rest == "" || !Blank(rest[0])
    ensures var h := field + (":" + (PrintAll(items) + ("\n" + rest)));
            Collect(h, Begin(oldmode)) == Listing(Addresses(items), NoFault)
  {
    hide Call, Collect, AllGood, PrintAll, Addresses, Measure, Sub, HeaderEnd, FieldName;
    var list, end := PrintAll(items), "\n" + rest;
    var h := field + (":" + (list + end));
    var s := Begin(oldmode);
    SubHere(h, 0, h);
    SubSplit(h, 0, field, ":" + (list + end));
    SubSplit(h, |field|, ":", list + end);
    SubSplit(h, |field| + 1, list, end);
    EndsHere(h, |field| + 1 + |list|, rest);
    FieldSkipped(h, s, field);
    ItemsRead(h, s.(hp := |field| + 1, mode := SkipJunk), items);
  }

  lemma {:induction false} FieldSkipped(h: string, s: State, field: string)
    requires FieldName(field) && s.mode == StartHdr && Sub(h, s.hp, field) && Sub(h, s.hp + |field|, ":")
    ensures s.hp + |field| < |h|
    ensures Collect(h, s) == Collect(h, s.(hp := s.hp + |field| + 1, mode := SkipJunk))
  {
    hide Call, Sub, Measure;
    var a := Enter(s);
    RunField(h, a, field);
    SubAt(h, s.hp + |field|, ":", 0);
    var b := a.(hp := a.hp + |field|);
    OneStep(h, b, b.(hp := b.hp + 1, mode := SkipJunk));
  }

  // Pieces in front of a comma that hold no plain character are not returned: what they mean is put
  // in front of the next address.
  lemma {:induction false} UnletteredMerges(field: string, a: seq<Bit>, b: seq<Bit>, rest: string, oldmode: Mode)
    requires FieldName(field) && AllBits(a) && !Lettered(a) && AllBits(b) && Lettered(b)
    requires EndsSolid(Held(Meant(a) + Meant(b))) && (rest == "" || !Blank(rest[0]))
    ensures var h := field + (":" + (TextAll(a) + ("," + (TextAll(b) + ("\n" + rest)))));
            Collect(h, Begin(oldmode)) == Listing([Held(Meant(a) + Meant(b))], NoFault)
  {
    hide Call, Collect, AllBits, Measure, Sub, HeaderEnd, FieldName, TextAll, Meant, Lettered, KeepAll, EndsSolid, Held;
    var second := TextAll(b) + ("\n" + rest);
    var list := TextAll(a) + ("," + second);
    var h := field + (":" + list);
    var s := Begin(oldmode);
    SubHere(h, 0, h);
    SubSplit(h, 0, field, ":" + list);
    SubSplit(h, |field|, ":", list);
    FieldSkipped(h, s, field);
    MergedRead(h, s.(hp := |field| + 1, mode := SkipJunk), a, b, rest);
  }

  lemma {:induction false} MergedRead(h: string, t: State, a: seq<Bit>, b: seq<Bit>, rest: string)
    requires t.mode == SkipJunk && t.depth == 0 && t.acc == ""
    requires AllBits(a) && AllBits(b) && !Lettered(a) && Lettered(b)
    requires EndsSolid(Held(Meant(a) + Meant(b))) && (rest == "" || !Blank(rest[0]))
    requires t.hp <= |h|
    requires var list := TextAll(a) + ("," + (TextAll(b) + ("\n" + rest)));
             Sub(h, t.hp, list) && |h| == t.hp + |list|
    ensures Collect(h, t) == Listing([Held(Meant(a) + Meant(b))], NoFault)
  {
    hide *;
    var end := "\n" + rest;
    SubSplit(h, t.hp, TextAll(a), "," + (TextAll(b) + end));
    InJunk(t);
    var u := BitsRead(h, t, a);
    SubSplit(h, u.hp, ",", TextAll(b) + end);
    SubAt(h, u.hp, ",", 0);
    CommaPassed(h, u);
    var v := u.(hp := u.hp + 1);
    InJunk(v);
    SubSplit(h, v.hp, TextAll(b), end);
    var w := BitsRead(h, v, b);
    KeepConcat("", Meant(a), Meant(b));
    KeptFromStart(Meant(a) + Meant(b));
    EndsHere(h, w.hp, rest);
    LastOne(h, t, w);
  }

  lemma {:induction false} InJunk(s: State)
    requires s.mode == SkipJunk
    ensures Open(s) && (s.depth == 0 ==> Enter(s) == s)
  {
  }

  lemma {:induction false} CommaPassed(h: string, s: State)
    requires s.mode == SkipJunk && s.hp < |h| && h[s.hp] == ','
    ensures Call(h, s) == Call(h, s.(hp := s.hp + 1))
  {
    hide Call, Measure;
    OneStep(h, s, s.(hp := s.hp + 1));
  }

  lemma {:induction false} LastOne(h: string, s: State, u: State)
    requires s.hp <= |h| && u.hp <= |h| && Call(h, Enter(s)) == Call(h, u) && u.mode == BareAddress && EndsSolid(u.acc)
    requires HeaderEnd(h, u.hp)
    ensures Collect(h, s) == Listing([u.acc], NoFault)
  {
    hide Call, Measure, Collect, EndsSolid;
    BareTail(h, u);
    CollectsOne(h, s, u);
    CollectsNothing(h, Call(h, u).s);
    ReturnsThen(h, s, [u.acc], Call(h, u).s, []);
  }

  // Once a call has returned null, every later one does.
  lemma {:induction false} NullForGood(h: string, s: State, t: State)
    requires s.hp <= |h| && Call(h, s) == Null(t)
    ensures t.hp <= |h| && Call(h, Enter(t)) == Null(Enter(t))
    decreases Measure(h, s)
  {
    hide Measure;
    StepAdvances(h, s);
    match Step(h, s)
    case More(u) => NullForGood(h, u, t);
    case _ =>
  }
}
