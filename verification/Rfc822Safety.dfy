/** Exactly when the address scanner leaves its buffer or its header. */
module Rfc822Safety {
  import opened Substrings
  import opened Rfc822
  import opened Rfc822RoundTrip

  // ---- One pass over the header, without buffer or calls ----

  // Where in the header a character stands; `from` is the place behind the last open '<'.
  datatype Context =
    | Field
    | Outside
    | InQuote
    | InComment(depth: nat)
    | InBracket(from: nat)
    | InBracketQuote(from: nat)

  function After(ctx: Context, c: char, i: nat): Context {
    match ctx
    case Field => if c == ':' then Outside else Field
    case Outside =>
      if c == '\"' then InQuote
      else if c == '(' then InComment(1)
      else if c == '<' then InBracket(i + 1)
      else Outside
    case InQuote => if c == '\"' then Outside else InQuote
    case InComment(d) =>
      if c == '(' then InComment(d + 1)
      else if c != ')' then InComment(d)
      else if d <= 1 then Outside
      else InComment(d - 1)
    case InBracket(from) =>
      if c == '>' then Outside
      else if c == '<' then InBracket(i + 1)
      else if c == '\"' then InBracketQuote(from)
      else InBracket(from)
    case InBracketQuote(from) => if c == '\"' then InBracket(from) else InBracketQuote(from)
  }

  predicate AllSpace(w: string) { forall k :: 0 <= k < |w| ==> White(w[k]) }

  // A bracket left open with some text behind it, of which the buffer holds only blanks.
  predicate Dangling(h: string, ctx: Context, e: nat) {
    && (ctx.InBracket? || ctx.InBracketQuote?)
    && ctx.from < e <= |h| && AllSpace(Held(h[ctx.from..e]))
  }

  // A newline with no continuation line behind it.
  predicate Ended(h: string, i: nat) { i < |h| && h[i] == '\n' && (i + 1 == |h| || !Blank(h[i + 1])) }

  lemma {:induction false} SameEnd(h: string, i: nat)
    ensures Ended(h, i) <==> HeaderEnd(h, i)
  {
  }

  // What a caller can find out in one pass before the call.
  function Verdict(h: string, i: nat, ctx: Context): Fault
    decreases |h| - i
  {
    if i >= |h| then NoFault
    else if Ended(h, i) then if Dangling(h, ctx, i) then OffFront else NoFault
    else if h[i] == '\\' && !ctx.InComment? then if i + 1 == |h| then OffEnd else Verdict(h, i + 2, ctx)
    else Verdict(h, i + 1, After(ctx, h[i], i))
  }

  // ---- The scanner follows that pass ----

  lemma {:induction false} TrimEmpty(s: string)
    ensures TrimEnd(s) == "" <==> AllSpace(s)
    decreases |s|
  {
    if s != "" && IsSpace(s[|s| - 1]) {
      var t := s[..|s| - 1];
      TrimEmpty(t);
      assert s == t + [s[|s| - 1]];
    }
  }

  predicate Between(m: Mode) { m == SkipJunk || m == BareAddress }

  predicate Proper(acc: string) { acc == "" || !IsSpace(acc[0]) }

  // The scanner's variables say where in the header it is.
  predicate Follows(h: string, s: State, ctx: Context) {
    && s.hp <= |h|
    && match ctx
       case Field => s.mode == StartHdr && Proper(s.acc)
       case Outside => Between(s.mode) && Proper(s.acc)
       case InQuote => s.mode == InsideDquote && Between(s.oldmode) && s.acc != "" && Proper(s.acc)
       case InComment(d) => s.mode == InsideParens && Between(s.oldmode) && s.depth == d > 0 && Proper(s.acc)
       case InBracket(from) => s.mode == InsideBrackets && from <= s.hp && s.acc == Held(h[from..s.hp])
       case InBracketQuote(from) =>
         && s.mode == InsideDquote && s.oldmode == InsideBrackets
         && from <= s.hp && s.acc == Held(h[from..s.hp])
  }

  lemma {:induction false} HeldMore(h: string, from: nat, i: nat)
    requires from <= i < |h|
    ensures Held(h[from..i + 1]) == Keep(Held(h[from..i]), h[i])
  {
    assert h[from..i + 1] == h[from..i] + [h[i]];
  }

  lemma {:induction false} KeepProper(acc: string, c: char)
    requires Proper(acc) && (acc != "" || !IsSpace(c))
    ensures Keep(acc, c) != "" && Proper(Keep(acc, c))
  {
  }

  lemma {:induction false} EndVerdict(h: string, s: State, ctx: Context)
    requires Follows(h, s, ctx) && HeaderEnd(h, s.hp)
    ensures AtEnd(s).Underrun? <==> Dangling(h, ctx, s.hp)
  {
    hide HeaderEnd, Between;
    TrimEmpty(s.acc);
  }

  lemma {:induction false} EscapeFollows(h: string, s: State, ctx: Context)
    requires Follows(h, s, ctx) && s.hp + 1 < |h| && h[s.hp] == '\\' && !ctx.InComment?
    ensures var t := s.(hp := s.hp + 2, acc := Keep(Keep(s.acc, h[s.hp]), h[s.hp + 1]));
            Escape(h, s) == More(t) && Follows(h, t, ctx)
  {
    hide Keep, Held;
    KeepProper2(s.acc, h[s.hp], h[s.hp + 1]);
    if ctx.InBracket? || ctx.InBracketQuote? {
      HeldMore(h, ctx.from, s.hp);
      HeldMore(h, ctx.from, s.hp + 1);
    }
  }

  lemma {:induction false} KeepProper2(acc: string, c: char, d: char)
    requires !IsSpace(c)
    ensures Proper(acc) ==> Keep(Keep(acc, c), d) != "" && Proper(Keep(Keep(acc, c), d))
  {
    hide Keep;
    if Proper(acc) {
      KeepProper(acc, c);
      KeepProper(Keep(acc, c), d);
    }
  }

  // One ordinary character: either the scanner moves with the pass, or it stays for the pushed-back
  // character or the comma it has returned at.
  lemma {:induction false} CharFollows(h: string, s: State, ctx: Context)
    requires Follows(h, s, ctx) && s.hp < |h| && s.mode != EnditAll && !HeaderEnd(h, s.hp)
    requires h[s.hp] == '\\' ==> ctx.InComment?
    ensures match Step(h, s)
            case More(t) => Moved(h, s, ctx, t)
            case Found(_, t) => t.mode != EnditAll && Moved(h, s, ctx, t)
            case _ => false
  {
    hide HeaderEnd, Keep, Held, IsSpace;
    SpecialsSolid();
    if Proper(s.acc) && (s.acc != "" || !IsSpace(h[s.hp])) { KeepProper(s.acc, h[s.hp]); }
    if ctx.InBracket? || ctx.InBracketQuote? { HeldMore(h, ctx.from, s.hp); }
    NothingHeld(h, s.hp + 1);
  }

  lemma {:induction false} SpecialsSolid()
    ensures !IsSpace('\"')
  {
  }

  lemma {:induction false} NothingHeld(h: string, i: nat)
    requires i <= |h|
    ensures Held(h[i..i]) == ""
  {
  }

  predicate Moved(h: string, s: State, ctx: Context, t: State)
    requires s.hp < |h|
  {
    || (t.hp == s.hp + 1 && Follows(h, t, After(ctx, h[s.hp], s.hp)))
    || (t.hp == s.hp && ctx == Outside && Follows(h, t, Outside))
  }

  // A call and the pass agree on the fault; a call that returns an address leaves the rest of the
  // header to the next one.
  lemma {:induction false} CallVerdict(h: string, s: State, ctx: Context)
    requires Follows(h, s, ctx)
    ensures s.hp <= |h| && s.mode != EnditAll
    ensures match Call(h, s)
            case Found(_, t) =>
              if t.mode == EnditAll then Verdict(h, s.hp, ctx) == NoFault
              else Follows(h, t, Outside) && Verdict(h, s.hp, ctx) == Verdict(h, t.hp, Outside)
            case Null(_) => Verdict(h, s.hp, ctx) == NoFault
            case Underrun => Verdict(h, s.hp, ctx) == OffFront
            case Overrun => Verdict(h, s.hp, ctx) == OffEnd
    decreases Measure(h, s)
  {
    SameEnd(h, s.hp);
    hide Ended, Measure, AtEnd, Dangling, HeaderEnd, OnJunk, OnBare, OnDquote, OnParens, OnBrackets;
    InMode(h, s, ctx);
    StepAdvances(h, s);
    if s.hp < |h| {
      if HeaderEnd(h, s.hp) {
        EndVerdict(h, s, ctx);
        EndModes(s);
      } else if h[s.hp] == '\\' && !ctx.InComment? {
        if s.hp + 1 < |h| {
          EscapeFollows(h, s, ctx);
          CallVerdict(h, Step(h, s).s, ctx);
        }
      } else {
        TurnVerdict(h, s, ctx);
        match Step(h, s)
        case More(t) => CallVerdict(h, t, if t.hp == s.hp then Outside else After(ctx, h[s.hp], s.hp));
        case _ =>
      }
    }
  }

  lemma {:induction false} InMode(h: string, s: State, ctx: Context)
    requires Follows(h, s, ctx)
    ensures s.hp <= |h| && s.mode != EnditAll && (s.mode == InsideParens <==> ctx.InComment?)
  {
  }

  lemma {:induction false} EndModes(s: State)
    ensures AtEnd(s).Found? ==> AtEnd(s).s.mode == EnditAll
    ensures AtEnd(s).Found? || AtEnd(s).Null? || AtEnd(s).Underrun?
  {
  }

  // The turn on an ordinary character, with what it leaves of the verdict.
  lemma {:induction false} TurnVerdict(h: string, s: State, ctx: Context)
    requires Follows(h, s, ctx) && s.hp < |h| && !HeaderEnd(h, s.hp) && (h[s.hp] == '\\' ==> ctx.InComment?)
    ensures match Step(h, s)
            case More(t) =>
              var next := if t.hp == s.hp then Outside else After(ctx, h[s.hp], s.hp);
              Follows(h, t, next) && Verdict(h, s.hp, ctx) == Verdict(h, t.hp, next)
            case Found(_, t) =>
              && t.mode != EnditAll && Follows(h, t, Outside)
              && Verdict(h, s.hp, ctx) == Verdict(h, t.hp, Outside)
            case _ => false
  {
    SameEnd(h, s.hp);
    hide Ended, Measure, HeaderEnd, Held, IsSpace, Keep, Dangling;
    InMode(h, s, ctx);
    CharFollows(h, s, ctx);
  }

  lemma {:induction false} CollectVerdict(h: string, s: State, ctx: Context)
    requires Follows(h, s, ctx) && !ctx.InComment?
    ensures s.hp <= |h| && Collect(h, s).fault == Verdict(h, s.hp, ctx)
    decreases Measure(h, s)
  {
    hide Call, Measure, Verdict;
    assert Follows(h, Enter(s), ctx);
    CallVerdict(h, Enter(s), ctx);
    DepthWeightless(h, s);
    match Call(h, Enter(s))
    case Found(_, t) =>
      if t.mode == EnditAll {
        CollectsNoMore(h, t);
      } else {
        CollectVerdict(h, t, Outside);
      }
    case _ =>
  }

  lemma {:induction false} DepthWeightless(h: string, s: State)
    requires s.hp <= |h|
    ensures Measure(h, Enter(s)) == Measure(h, s)
  {
  }

  lemma {:induction false} CollectsNoMore(h: string, s: State)
    requires s.hp <= |h| && s.mode == EnditAll
    ensures Collect(h, s) == Listing([], NoFault)
  {
  }

  // ---- The results ----

  // The one pass decides, for every header, whether some call leaves the front of the buffer,
  // whether one leaves the end of the header, or none does either.
  lemma {:induction false} FaultsExactly(h: string, oldmode: Mode)
    ensures Collect(h, Begin(oldmode)).fault == Verdict(h, 0, Field)
  {
    hide Collect, Verdict;
    CollectVerdict(h, Begin(oldmode), Field);
  }

  // An open bracket is behind a '<' of the header.
  predicate Anchored(h: string, ctx: Context, i: nat) {
    ctx.InBracket? || ctx.InBracketQuote? ==> 1 <= ctx.from <= i && ctx.from <= |h| && h[ctx.from - 1] == '<'
  }

  predicate BlankBehindBracket(h: string, k: nat) { k + 1 < |h| && h[k] == '<' && White(h[k + 1]) }

  lemma {:induction false} DanglingBlank(h: string, ctx: Context, i: nat)
    requires Dangling(h, ctx, i)
    ensures White(h[ctx.from])
  {
    var w := Held(h[ctx.from..i]);
    assert w[0] == h[ctx.from];
  }

  // What each fault takes: a '<' with a blank right behind it, or a final backslash.
  lemma {:induction false} FaultsNeed(h: string, i: nat, ctx: Context)
    requires i <= |h| && Anchored(h, ctx, i)
    ensures Verdict(h, i, ctx) == OffFront ==> exists k :: 0 <= k < |h| && BlankBehindBracket(h, k)
    ensures Verdict(h, i, ctx) == OffEnd ==> h != "" && h[|h| - 1] == '\\'
    decreases |h| - i
  {
    hide White, HeaderEnd, Held, AllSpace;
    SameEnd(h, i);
    if i < |h| {
      if HeaderEnd(h, i) {
        if Dangling(h, ctx, i) {
          DanglingBlank(h, ctx, i);
          assert BlankBehindBracket(h, ctx.from - 1);
        }
      } else if h[i] == '\\' && !ctx.InComment? {
        if i + 1 < |h| { FaultsNeed(h, i + 2, ctx); }
      } else {
        FaultsNeed(h, i + 1, After(ctx, h[i], i));
      }
    }
  }

  // A simpler test that is enough: no backslash at the very end, no blank right behind a '<'.
  predicate SafeHeader(h: string) {
    (h == "" || h[|h| - 1] != '\\') && forall k :: 0 <= k < |h| ==> !BlankBehindBracket(h, k)
  }

  lemma {:induction false} SafeHeadersAreSafe(h: string, oldmode: Mode)
    requires SafeHeader(h)
    ensures Collect(h, Begin(oldmode)).fault == NoFault
  {
    hide Collect, Verdict, BlankBehindBracket;
    FaultsExactly(h, oldmode);
    FaultsNeed(h, 0, Field);
  }

  // The headers that message.c passes end in a newline: they are never overrun.
  lemma {:induction false} NewlineStopsTheScan(h: string, oldmode: Mode)
    requires h != "" && h[|h| - 1] == '\n'
    ensures Collect(h, Begin(oldmode)).fault != OffEnd
  {
    hide Collect, Verdict, BlankBehindBracket;
    FaultsExactly(h, oldmode);
    FaultsNeed(h, 0, Field);
  }

  // The scan from an open bracket to the end of the header.
  lemma {:induction false} OpenBracketRun(h: string, t: State, w: string)
    requires t.mode == SkipJunk && Sub(h, t.hp, "<" + (w + "\n")) && BracketText(w)
    ensures t.hp + 1 + |w| < |h| && h[t.hp + 1 + |w|] == '\n'
    ensures Call(h, t) == Call(h, t.(hp := t.hp + 1 + |w|, mode := InsideBrackets, acc := Held(w)))
  {
    hide Call, BracketText, Sub, Measure, KeepAll, Held;
    SubSplit(h, t.hp, "<", w + "\n");
    SubAt(h, t.hp, "<", 0);
    OpenBracket(h, t);
    var u := t.(hp := t.hp + 1, mode := InsideBrackets, acc := "");
    SubSplit(h, u.hp, w, "\n");
    SubAt(h, u.hp + |w|, "\n", 0);
    RunBrackets(h, u, w);
    KeepsHeld("", w);
    assert "" + w == w;
  }

  // A bracket left open to the end of the header, over any text: the trimming loop runs off the
  // front of the buffer exactly when blanks are all the buffer holds; otherwise the text is returned
  // without its trailing blanks.
  lemma {:induction false} OpenBracketHeader(field: string, w: string, oldmode: Mode)
    requires FieldName(field) && BracketText(w)
    ensures var list := Collect(field + (":" + ("<" + (w + "\n"))), Begin(oldmode));
            list == if w == "" then Listing([], NoFault)
                    else if AllSpace(Held(w)) then Listing([], OffFront)
                    else Listing([TrimEnd(Held(w))], NoFault)
  {
    hide Call, Collect, BracketText, TrimEnd, Sub, Measure, FieldName, Held, AllSpace;
    var last := "<" + (w + "\n");
    var h := field + (":" + last);
    var s := Begin(oldmode);
    WholeSub(h);
    SubSplit(h, 0, field, ":" + last);
    SubSplit(h, |field|, ":", last);
    FieldSkipped(h, s, field);
    var t := s.(hp := |field| + 1, mode := SkipJunk);
    OpenBracketRun(h, t, w);
    OpenAtEnd(h, t, t.(hp := t.hp + 1 + |w|, mode := InsideBrackets, acc := Held(w)));
    HeldEmpty(w);
  }

  lemma {:induction false} HeldEmpty(w: string)
    ensures Held(w) == "" <==> w == ""
  {
  }

  lemma {:induction false} WholeSub(h: string)
    ensures Sub(h, 0, h)
  {
    SubHere(h, 0, h);
  }

  lemma {:induction false} OpenAtEnd(h: string, t: State, v: State)
    requires t.hp <= |h| && t == Enter(t) && v.hp == |h| - 1 && h[v.hp] == '\n' && v.mode == InsideBrackets
    requires Call(h, t) == Call(h, v)
    ensures Collect(h, t) == if v.acc == "" then Listing([], NoFault)
                             else if AllSpace(v.acc) then Listing([], OffFront)
                             else Listing([TrimEnd(v.acc)], NoFault)
  {
    hide TrimEnd, AllSpace;
    TrimEmpty(v.acc);
    assert HeaderEnd(h, v.hp);
    assert Call(h, v) == AtEnd(v);
    if AtEnd(v).Found? {
      CollectsNothing(h, AtEnd(v).s);
    }
  }

  // More blanks than the buffer holds hide everything behind them, an address too.
  lemma {:induction false} LongBlanksHideTheRest(field: string, blanks: string, rest: string, oldmode: Mode)
    requires FieldName(field) && AllSpace(blanks) && |blanks| >= BUFSIZ - 1 && BracketText(blanks + rest)
    ensures Collect(field + (":" + ("<" + ((blanks + rest) + "\n"))), Begin(oldmode)) == Listing([], OffFront)
  {
    hide Collect, FieldName, BracketText, White;
    var w := blanks + rest;
    assert |Held(w)| == BUFSIZ - 1 || w == blanks;
    assert forall k :: 0 <= k < |Held(w)| ==> Held(w)[k] == blanks[k];
    OpenBracketHeader(field, w, oldmode);
  }

  // For instance 8191 blanks and then an x, which trimming would have kept.
  lemma {:induction false} LongBlanksInstance(oldmode: Mode)
    ensures var w := seq(BUFSIZ - 1, i => ' ') + "x";
            TrimEnd(w) == w && Collect("To" + (":" + ("<" + (w + "\n"))), Begin(oldmode)) == Listing([], OffFront)
  {
    hide Collect;
    var blanks := seq(BUFSIZ - 1, i => ' ');
    LongBlanksHideTheRest("To", blanks, "x", oldmode);
    assert (blanks + "x")[|blanks + "x"| - 1] == 'x';
  }

  // A backslash as the last character, behind any pieces outside brackets, takes the terminator along.
  lemma {:induction false} BackslashAtEnd(field: string, bits: seq<Bit>, oldmode: Mode)
    requires FieldName(field) && AllBits(bits)
    ensures Collect(field + (":" + (TextAll(bits) + "\\")), Begin(oldmode)) == Listing([], OffEnd)
  {
    hide Call, Sub, AllBits, Collect, Measure, TextAll, KeepAll, Meant, Lettered;
    var w := TextAll(bits);
    var h := field + (":" + (w + "\\"));
    var s := Begin(oldmode);
    WholeSub(h);
    SubSplit(h, 0, field, ":" + (w + "\\"));
    SubSplit(h, |field|, ":", w + "\\");
    FieldSkipped(h, s, field);
    var t := s.(hp := |field| + 1, mode := SkipJunk);
    SubSplit(h, t.hp, w, "\\");
    SubAt(h, t.hp + |w|, "\\", 0);
    var v := BitsRead(h, t, bits);
    EscapedTerminator(h, t, v);
  }

  lemma {:induction false} EscapedTerminator(h: string, t: State, v: State)
    requires t.hp <= |h| && t == Enter(t) && v.hp == |h| - 1 && h[v.hp] == '\\' && Open(v)
    requires Call(h, t) == Call(h, v)
    ensures Collect(h, t) == Listing([], OffEnd)
  {
    assert Call(h, v) == Overrun;
  }
}
