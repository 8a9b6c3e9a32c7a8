/** The resumable address scanner for RFC 822 headers: next_address as a step function over its
    static variables, the loop that runs it, and the loop in message.c that collects recipients. */
module Rfc822 {
  import opened Options

  const BUFSIZ: nat := 8192

  datatype Mode = StartHdr | SkipJunk | BareAddress | InsideDquote | InsideParens | InsideBrackets | EnditAll

  // The static variables between two characters; `acc` is address[..tp].
  datatype State = State(hp: nat, mode: Mode, oldmode: Mode, depth: int, acc: string)

  predicate IsSpace(c: char) {
    c == ' ' || c == '\t' || c == '\n' || c == '\U{0B}' || c == '\U{0C}' || c == '\r'
  }

  // Store a character; a full buffer keeps its last cell for the terminator.
  function Keep(acc: string, c: char): string {
    if |acc| < BUFSIZ - 1 then acc + [c] else acc
  }

  // A newline that no continuation line follows.
  predicate HeaderEnd(h: string, i: nat) {
    i < |h| && h[i] == '\n' && !(i + 1 < |h| && (h[i + 1] == ' ' || h[i + 1] == '\t'))
  }

  function TrimEnd(s: string): string {
    if s != "" && IsSpace(s[|s| - 1]) then TrimEnd(s[..|s| - 1]) else s
  }

  // What one turn of the loop does.  Underrun: the trimming loop runs off the front of the buffer.
  // Overrun: an escape takes the terminator and the scan runs off the end of the header.
  datatype Outcome =
    | More(s: State)
    | Found(address: string, s: State)
    | Null(s: State)
    | Underrun
    | Overrun

  function AtEnd(s: State): Outcome {
    var done := s.(mode := EnditAll, acc := "");
    if s.acc == "" then Null(done)
    else if TrimEnd(s.acc) == "" then Underrun
    else Found(TrimEnd(s.acc), done)
  }

  function Escape(h: string, s: State): Outcome
    requires s.hp < |h|
  {
    if s.mode == InsideParens then More(s.(hp := s.hp + 1))
    else if s.hp + 1 == |h| then Overrun
    else More(s.(hp := s.hp + 2, acc := Keep(Keep(s.acc, h[s.hp]), h[s.hp + 1])))
  }

  function OnJunk(c: char, s: State): Outcome {
    var next := s.(hp := s.hp + 1);
    if c == '\"' then More(next.(oldmode := SkipJunk, mode := InsideDquote, acc := Keep(s.acc, c)))
    else if c == '(' then More(next.(depth := 1, oldmode := SkipJunk, mode := InsideParens))
    else if c == '<' then More(next.(mode := InsideBrackets, acc := ""))
    else if c != ',' && !IsSpace(c) then More(s.(mode := BareAddress))
    else More(next)
  }

  function OnBare(c: char, s: State): Outcome {
    var next := s.(hp := s.hp + 1);
    if c == ',' then if s.acc != "" then Found(s.acc, s.(mode := SkipJunk, acc := "")) else More(next)
    else if c == '(' then More(next.(depth := 1, oldmode := BareAddress, mode := InsideParens))
    else if c == '<' then More(next.(mode := InsideBrackets, acc := ""))
    else if c == '\"' then More(next.(oldmode := BareAddress, mode := InsideDquote, acc := Keep(s.acc, c)))
    else if !IsSpace(c) then More(next.(acc := Keep(s.acc, c)))
    else More(next)
  }

  function OnDquote(c: char, s: State): Outcome {
    More(s.(hp := s.hp + 1, acc := Keep(s.acc, c), mode := if c == '\"' then s.oldmode else InsideDquote))
  }

  function OnParens(c: char, s: State): Outcome {
    var d := if c == '(' then s.depth + 1 else if c == ')' then s.depth - 1 else s.depth;
    More(s.(hp := s.hp + 1, depth := d, mode := if d == 0 then s.oldmode else InsideParens))
  }

  function OnBrackets(c: char, s: State): Outcome {
    var next := s.(hp := s.hp + 1);
    if c == '>' then Found(s.acc, next.(mode := SkipJunk, acc := ""))
    else if c == '<' then More(next.(acc := ""))
    else if c == '\"' then More(next.(acc := Keep(s.acc, c), oldmode := InsideBrackets, mode := InsideDquote))
    else More(next.(acc := Keep(s.acc, c)))
  }

  function Step(h: string, s: State): Outcome {
    if s.hp >= |h| || s.mode == EnditAll then Null(s)
    else if HeaderEnd(h, s.hp) then AtEnd(s)
    else if h[s.hp] == '\\' then Escape(h, s)
    else
      var c := h[s.hp];
      match s.mode
      case StartHdr => More(s.(hp := s.hp + 1, mode := if c == ':' then SkipJunk else StartHdr))
      case SkipJunk => OnJunk(c, s)
      case BareAddress => OnBare(c, s)
      case InsideDquote => OnDquote(c, s)
      case InsideParens => OnParens(c, s)
      case InsideBrackets => OnBrackets(c, s)
      case EnditAll => Null(s)
  }

  // ---- Termination ----

  // The pushed-back character makes the cursor stand still once; the mode's weight falls then.
  function ModeWeight(h: string, s: State): nat {
    match s.mode
    case EnditAll => 0
    case SkipJunk => if s.hp < |h| && h[s.hp] == ',' then 0 else 2
    case _ => 1
  }

  function Measure(h: string, s: State): nat
    requires s.hp <= |h|
  {
    3 * (|h| - s.hp) + ModeWeight(h, s)
  }

  lemma {:induction false} StepAdvances(h: string, s: State)
    requires s.hp <= |h|
    ensures match Step(h, s)
            case More(t) => t.hp <= |h| && Measure(h, t) < Measure(h, s)
            case Found(_, t) => t.hp <= |h| && Measure(h, t) < Measure(h, s)
            case Null(t) => t.hp <= |h|
            case _ => true
  {
  }

  // One call, to its return.
  function Call(h: string, s: State): (r: Outcome)
    requires s.hp <= |h|
    ensures !r.More?
    ensures r.Found? ==> r.s.hp <= |h| && Measure(h, r.s) < Measure(h, s)
    ensures r.Null? ==> r.s.hp <= |h|
    decreases Measure(h, s)
  {
    StepAdvances(h, s);
    match Step(h, s)
    case More(t) => Call(h, t)
    case r => r
  }

  // `parendepth` is local to the call.
  function Enter(s: State): State { s.(depth := 0) }

  // A new header leaves `oldstate` as it was.
  function Begin(oldmode: Mode): State { State(0, StartHdr, oldmode, 0, "") }

  // Whether a call left the front of the address buffer or the end of the header.
  datatype Fault = NoFault | OffFront | OffEnd

  datatype Listing = Listing(found: seq<string>, fault: Fault)

  // The addresses of successive calls up to the first null.
  function Collect(h: string, s: State): Listing
    requires s.hp <= |h|
    decreases Measure(h, s)
  {
    match Call(h, Enter(s))
    case Found(a, t) => var rest := Collect(h, t); Listing([a] + rest.found, rest.fault)
    case Null(_) => Listing([], NoFault)
    case Underrun => Listing([], OffFront)
    case Overrun => Listing([], OffEnd)
  }

  // How a turn of the loop ends.
  datatype Turn = Continue | ReturnAddress(address: string) | ReturnNull | Stray(fault: Fault)

  class AddressScanner {
    var header: string
    var hp: nat
    var state: Mode
    var oldstate: Mode
    var parendepth: int
    var tp: nat
    const address: array<char>

    constructor ()
      ensures Valid() && fresh(address) && header == "" && hp == 0
    {
      header, hp, state, oldstate, parendepth, tp := "", 0, StartHdr, StartHdr, 0, 0;
      address := new char[BUFSIZ];
    }

    ghost predicate Valid()
      reads this
    {
      address.Length == BUFSIZ && tp < BUFSIZ && hp <= |header|
    }

    ghost function Now(): State
      reads this, address
      requires Valid()
    {
      State(hp, state, oldstate, parendepth, address[..tp])
    }

    // The new state and the way the turn ended are those of `o`.
    ghost predicate Did(o: Outcome, t: Turn)
      reads this, address
    {
      match o
      case More(s) => t == Continue && Valid() && Now() == s
      case Found(a, s) => t == ReturnAddress(a) && Valid() && Now() == s
      case Null(s) => t == ReturnNull && Valid() && Now() == s
      case Underrun => t == Stray(OffFront)
      case Overrun => t == Stray(OffEnd)
    }

    // address[NEXTTP()] = c
    method Put(c: char)
      requires Valid()
      modifies this`tp, address
      ensures Valid() && address[..tp] == Keep(old(address[..tp]), c)
    {
      address[tp] := c;
      if tp < BUFSIZ - 1 {
        tp := tp + 1;
        assert address[..tp] == old(address[..tp]) + [c];
      }
    }

    // Cut the collected address and hand it out.
    method Take() returns (a: string)
      requires Valid()
      modifies this`tp
      ensures Valid() && tp == 0 && a == old(address[..tp])
    {
      a := address[..tp];
      tp := 0;
    }

    // The end of the header: drop trailing blanks and return what was collected.
    method FinishHeader() returns (t: Turn)
      requires Valid()
      modifies this`state, this`tp
      ensures Did(AtEnd(old(Now())), t)
    {
      state := EnditAll;
      if tp == 0 {
        return ReturnNull;
      }
      ghost var all := address[..tp];
      while tp > 0 && IsSpace(address[tp - 1])
        invariant tp <= old(tp) && state == EnditAll && TrimEnd(address[..tp]) == TrimEnd(all)
      {
        assert address[..tp][..tp - 1] == address[..tp - 1];
        tp := tp - 1;
      }
      assert TrimEnd(all) == address[..tp];
      if tp == 0 {
        return Stray(OffFront);
      }
      var a := Take();
      assert address[..tp] == "";
      return ReturnAddress(a);
    }

    method TakeEscape() returns (t: Turn)
      requires Valid() && hp < |header|
      modifies this`hp, this`tp, address
      ensures Did(Escape(header, old(Now())), t)
    {
      if state != InsideParens {
        Put(header[hp]);
        hp := hp + 1;
        if hp == |header| {
          return Stray(OffEnd);
        }
        Put(header[hp]);
      }
      hp := hp + 1;
      return Continue;
    }

    method Junk(c: char)
      requires Valid() && hp < |header| && c == header[hp]
      modifies this, address
      ensures header == old(header) && Did(OnJunk(c, old(Now())), Continue)
    {
      if c == '\"' {
        oldstate, state := SkipJunk, InsideDquote;
        Put(c);
      } else if c == '(' {
        parendepth, oldstate, state := 1, SkipJunk, InsideParens;
      } else if c == '<' {
        state, tp := InsideBrackets, 0;
      } else if c != ',' && !IsSpace(c) {
        state := BareAddress;
        return;
      }
      hp := hp + 1;
    }

    method Bare(c: char) returns (t: Turn)
      requires Valid() && hp < |header| && c == header[hp]
      modifies this, address
      ensures header == old(header) && Did(OnBare(c, old(Now())), t)
    {
      if c == ',' {
        if tp != 0 {
          var a := Take();
          state := SkipJunk;
          return ReturnAddress(a);
        }
      } else if c == '(' {
        parendepth, oldstate, state := 1, BareAddress, InsideParens;
      } else if c == '<' {
        state, tp := InsideBrackets, 0;
      } else if c == '\"' {
        oldstate, state := BareAddress, InsideDquote;
        Put(c);
      } else if !IsSpace(c) {
        Put(c);
      }
      hp := hp + 1;
      return Continue;
    }

    method Dquote(c: char)
      requires Valid() && hp < |header| && c == header[hp] && state == InsideDquote
      modifies this, address
      ensures header == old(header) && Did(OnDquote(c, old(Now())), Continue)
    {
      Put(c);
      if c == '\"' {
        state := oldstate;
      }
      hp := hp + 1;
    }

    method Parens(c: char)
      requires Valid() && hp < |header| && c == header[hp] && state == InsideParens
      modifies this
      ensures header == old(header) && Did(OnParens(c, old(Now())), Continue)
    {
      if c == '(' {
        parendepth := parendepth + 1;
      } else if c == ')' {
        parendepth := parendepth - 1;
      }
      if parendepth == 0 {
        state := oldstate;
      }
      hp := hp + 1;
    }

    method Brackets(c: char) returns (t: Turn)
      requires Valid() && hp < |header| && c == header[hp] && state == InsideBrackets
      modifies this, address
      ensures header == old(header) && Did(OnBrackets(c, old(Now())), t)
    {
      if c == '>' {
        var a := Take();
        state := SkipJunk;
        hp := hp + 1;
        return ReturnAddress(a);
      } else if c == '<' {
        tp := 0;
      } else if c == '\"' {
        Put(c);
        oldstate, state := InsideBrackets, InsideDquote;
      } else {
        Put(c);
      }
      hp := hp + 1;
      return Continue;
    }

    // One turn of the loop on a character of the header.
    method OneTurn() returns (t: Turn)
      requires Valid() && hp < |header|
      modifies this, address
      ensures header == old(header) && Did(Step(header, old(Now())), t)
    {
      hide OnJunk, OnBare, OnDquote, OnParens, OnBrackets, Escape, AtEnd, HeaderEnd;
      if state == EnditAll {
        return ReturnNull;
      }
      t := Continue;
      var c := header[hp];
      if HeaderEnd(header, hp) {
        t := FinishHeader();
      } else if c == '\\' {
        t := TakeEscape();
      } else {
        match state
        case StartHdr =>
          if c == ':' { state := SkipJunk; }
          hp := hp + 1;
        case SkipJunk => Junk(c);
        case BareAddress => t := Bare(c);
        case InsideDquote => Dquote(c);
        case InsideParens => Parens(c);
        case InsideBrackets => t := Brackets(c);
      }
    }

    // next_address; `fault` reports an access outside the buffer or the header.
    method NextAddress(hdr: Option<string>) returns (r: Option<string>, fault: Fault)
      requires Valid()
      modifies this, address
      ensures header == if hdr.Some? then hdr.value else old(header)
      ensures var start := if hdr.Some? then Begin(old(oldstate)) else Enter(old(Now()));
              match Call(header, start)
              case Found(a, s) => r == Some(a) && fault == NoFault && Valid() && Now() == s
              case Null(s) => r == None && fault == NoFault && Valid() && Now() == s
              case Underrun => fault == OffFront
              case Overrun => fault == OffEnd
    {
      hide Step, Measure;
      parendepth := 0;
      if hdr.Some? {
        header, hp, state, tp := hdr.value, 0, StartHdr, 0;
      }
      assert tp == 0 ==> address[..tp] == "";
      ghost var start := Now();
      while hp < |header|
        invariant Valid() && header == if hdr.Some? then hdr.value else old(header)
        invariant Call(header, Now()) == Call(header, start)
        decreases Measure(header, Now())
      {
        StepAdvances(header, Now());
        var t := OneTurn();
        match t
        case Continue =>
        case ReturnAddress(a) => return Some(a), NoFault;
        case ReturnNull => return None, NoFault;
        case Stray(f) => return None, f;
      }
      CallAtTerminator(header, Now());
      return None, NoFault;
    }
  }

  lemma {:induction false} CallAtTerminator(h: string, s: State)
    requires s.hp == |h|
    ensures Call(h, s) == Null(s)
  {
  }

  // The loop that adds every address of a header to the recipients.
  method Recipients(scanner: AddressScanner, header: string) returns (list: Listing)
    requires scanner.Valid()
    modifies scanner, scanner.address
    ensures list == Collect(header, Begin(old(scanner.oldstate)))
  {
    hide Call;
    ghost var all := Collect(header, Begin(scanner.oldstate));
    var found: seq<string> := [];
    assert Enter(Begin(scanner.oldstate)) == Begin(scanner.oldstate);
    ghost var s := Begin(scanner.oldstate);
    var address, fault := scanner.NextAddress(Some(header));
    while fault == NoFault && address.Some?
      invariant s.hp <= |header| && scanner.header == header
      invariant all.found == found + Collect(header, s).found && all.fault == Collect(header, s).fault
      invariant match Call(header, Enter(s))
                case Found(a, t) => address == Some(a) && fault == NoFault && scanner.Valid() && scanner.Now() == t
                case Null(_) => address == None && fault == NoFault
                case Underrun => fault == OffFront
                case Overrun => fault == OffEnd
      decreases Measure(header, s)
    {
      found := found + [address.value];
      s := scanner.Now();
      address, fault := scanner.NextAddress(None);
    }
    list := Listing(found, fault);
  }
}
