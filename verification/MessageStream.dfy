/** message_read: a mail message read in pieces of any size, with every bare LF turned into CRLF
    (section 2.3.7 of RFC 2821) and the raw bytes copied to the mail delivery agent. */
module MessageStream {

  // ----- specification

  /** Conversion of s, given whether the byte before it was a CR. */
  function Crlf(afterCr: bool, s: seq<char>): seq<char>
    decreases |s|
  {
    if s == [] then []
    else if s[0] == '\n' && !afterCr then ['\r', '\n'] + Crlf(false, s[1..])
    else [s[0]] + Crlf(s[0] == '\r', s[1..])
  }

  /** What position i of a message becomes. */
  function Piece(s: seq<char>, i: nat): seq<char>
    requires i < |s|
  {
    if s[i] == '\n' && (i == 0 || s[i - 1] != '\r') then ['\r', '\n'] else [s[i]]
  }

  function Pieces(s: seq<char>, n: nat): seq<char>
    requires n <= |s|
  {
    if n == 0 then [] else Pieces(s, n - 1) + Piece(s, n - 1)
  }

  lemma {:induction false} CrlfIsPieces(s: seq<char>, n: nat)
    requires n <= |s|
    ensures Pieces(s, n) + Crlf(n > 0 && s[n - 1] == '\r', s[n..]) == Crlf(false, s)
  {
    hide Crlf, Piece;
    if n == 0 {
      assert s[0..] == s;
    } else {
      CrlfIsPieces(s, n - 1);
      CrlfStep(s, n - 1);
      var r := Crlf(s[n - 1] == '\r', s[n..]);
      assert Pieces(s, n) + r == Pieces(s, n - 1) + (Piece(s, n - 1) + r);
    }
  }

  lemma {:induction false} CrlfStep(s: seq<char>, i: nat)
    requires i < |s|
    ensures Crlf(i > 0 && s[i - 1] == '\r', s[i..]) == Piece(s, i) + Crlf(s[i] == '\r', s[i + 1..])
  {
    assert s[i..][1..] == s[i + 1..];
  }

  /** The conversion changes a message only by putting a CR before each LF that lacks one. */
  lemma {:induction false} ConvertsBareLineFeeds(s: seq<char>)
    ensures Crlf(false, s) == Pieces(s, |s|)
  {
    CrlfIsPieces(s, |s|);
    assert s[|s|..] == [];
  }

  ghost predicate EveryLfAfterCr(afterCr: bool, s: seq<char>) {
    && (s != [] && s[0] == '\n' ==> afterCr)
    && forall i {:trigger s[i]} :: 0 < i < |s| && s[i] == '\n' ==> s[i - 1] == '\r'
  }

  lemma {:induction false} NoBareLfRemains(afterCr: bool, s: seq<char>)
    ensures EveryLfAfterCr(afterCr, Crlf(afterCr, s))
    decreases |s|
  {
    if s != [] {
      var rest := Crlf(s[0] == '\r', s[1..]);
      NoBareLfRemains(s[0] == '\r', s[1..]);
      if s[0] == '\n' && !afterCr {
        assert Crlf(afterCr, s) == ['\r', '\n'] + rest;
      } else {
        assert Crlf(afterCr, s) == [s[0]] + rest;
      }
    }
  }

  lemma {:induction false} CrlfKeepsConverted(afterCr: bool, s: seq<char>)
    requires EveryLfAfterCr(afterCr, s)
    ensures Crlf(afterCr, s) == s
    decreases |s|
  {
    if s != [] {
      assert EveryLfAfterCr(s[0] == '\r', s[1..]) by {
        assert |s| > 1 && s[1] == '\n' ==> s[0] == '\r';
        forall i | 0 < i < |s[1..]| && s[1..][i] == '\n' ensures s[1..][i - 1] == '\r' {
          assert s[i + 1] == '\n';
        }
      }
      CrlfKeepsConverted(s[0] == '\r', s[1..]);
      assert s[0] == '\n' ==> afterCr;
      assert s == [s[0]] + s[1..];
    }
  }

  /** Converting twice changes nothing more. */
  lemma {:induction false} CrlfIdempotent(afterCr: bool, s: seq<char>)
    ensures Crlf(afterCr, Crlf(afterCr, s)) == Crlf(afterCr, s)
  {
    NoBareLfRemains(afterCr, s);
    CrlfKeepsConverted(afterCr, Crlf(afterCr, s));
  }

  /** A run without LF is copied as it is. */
  lemma {:induction false} CrlfPlain(afterCr: bool, x: seq<char>, y: seq<char>)
    requires x != [] && '\n' !in x
    ensures Crlf(afterCr, x + y) == x + Crlf(x[|x| - 1] == '\r', y)
    decreases |x|
  {
    assert (x + y)[0] == x[0] && (x + y)[1..] == x[1..] + y;
    if |x| == 1 {
      assert x[1..] + y == y;
    } else {
      CrlfPlain(x[0] == '\r', x[1..], y);
      assert x == [x[0]] + x[1..];
    }
  }

  // ----- the program

  class Message {
    const buffer: array<char>
    var start: nat
    var stop: nat
    var r: bool
    /** What the message file still holds. */
    var file: seq<char>
    const hasMda: bool
    /** What the delivery agent has been sent. */
    var mda: seq<char>

    ghost predicate Valid()
      reads this
    {
      0 < buffer.Length && start <= stop <= buffer.Length
    }

    /** Bytes not yet consumed: the buffer window, then the file. */
    ghost function Unread(): seq<char>
      reads this, buffer
      requires Valid()
    {
      buffer[start..stop] + file
    }

    /** Output still to come. */
    ghost function Rest(): seq<char>
      reads this, buffer
      requires Valid()
    {
      Crlf(r, Unread())
    }

    /** A message whose first bytes are already in a buffer of the given size. */
    constructor (size: nat, held: seq<char>, file: seq<char>, hasMda: bool)
      requires 0 < size && |held| <= size
      ensures Valid() && fresh(buffer) && Unread() == held + file && !r
      ensures this.hasMda == hasMda && mda == []
    {
      buffer := new char[size](i => if 0 <= i < |held| then held[i] else ' ');
      start, stop, r := 0, |held|, false;
      this.file, this.hasMda, this.mda := file, hasMda, [];
      new;
      assert buffer[0..|held|] == held;
    }

    /** memchr for a newline in the window from p; the window's end when there is none. */
    method FindNewline(p: nat) returns (q: nat)
      requires Valid() && p <= stop
      ensures p <= q <= stop && '\n' !in buffer[p..q]
      ensures q < stop ==> buffer[q] == '\n'
    {
      q := p;
      while q < stop && buffer[q] != '\n'
        invariant p <= q <= stop && '\n' !in buffer[p..q]
      {
        q := q + 1;
      }
    }

    /** message_buffer_fill: fread delivers any number of bytes, none only when it can deliver none. */
    method Fill()
      requires Valid()
      modifies this`stop, this`file, buffer
      ensures Valid() && Unread() == old(Unread())
      ensures start < buffer.Length && old(start == stop) && start == stop ==> file == [] || stop == buffer.Length
    {
      var room := buffer.Length - stop;
      var n: int := *;
      if n > room || n > |file| || n <= 0 {
        n := if room < |file| then room else |file|;
      }
      ghost var window, queued := buffer[start..stop], file;
      Store(n);
      stop := stop + n;
      file := file[n..];
      assert window + queued[..n] + queued[n..] == window + queued;
    }

    /** The bytes fread puts behind the window. */
    method Store(n: nat)
      requires Valid() && n <= buffer.Length - stop && n <= |file|
      modifies buffer
      ensures buffer[start..stop + n] == old(buffer[start..stop]) + file[..n]
    {
      ghost var window := buffer[start..stop];
      forall i | 0 <= i < n { buffer[stop + i] := file[i]; }
      assert buffer[start..stop + n] == window + file[..n];
    }

    /** Copy n bytes of a run without newline. */
    method CopyRun(dst: array<char>, at: nat, n: nat) returns (ghost out: seq<char>)
      requires Valid() && dst != buffer && at + n <= dst.Length
      requires 0 < n <= stop - start && '\n' !in buffer[start..start + n]
      modifies this`start, this`r, dst
      ensures Valid() && start == old(start) + n
      ensures |out| == n && dst[..at + n] == old(dst[..at]) + out
      ensures old(Rest()) == out + Rest()
    {
      hide Crlf;
      var from := start;
      out := buffer[from..from + n];
      ghost var left := buffer[from + n..stop] + file;
      assert Unread() == out + left by {
        assert buffer[from..stop] == out + buffer[from + n..stop];
      }
      CrlfPlain(r, out, left);
      assert out[n - 1] == buffer[from + n - 1];
      CopyBytes(dst, at, n);
      start := from + n;
      r := buffer[start - 1] == '\r';
      assert Unread() == left;
    }

    /** memcpy from the window's start. */
    method CopyBytes(dst: array<char>, at: nat, n: nat)
      requires Valid() && dst != buffer && at + n <= dst.Length && n <= stop - start
      modifies dst
      ensures dst[..at + n] == old(dst[..at]) + buffer[start..start + n]
    {
      ghost var before := dst[..at];
      forall i | 0 <= i < n { dst[at + i] := buffer[start + i]; }
      assert dst[..at + n] == before + buffer[start..start + n];
    }

    /** The newline at the window's start, with a CR first unless one is there or already sent.
        If only the CR fits, r remembers that it was sent. */
    method EmitNewline(dst: array<char>, at: nat, room: nat) returns (k: nat, ghost out: seq<char>)
      requires Valid() && dst != buffer && 0 < room && at + room <= dst.Length
      requires start < stop && buffer[start] == '\n'
      modifies this`start, this`r, dst
      ensures Valid() && 0 < k <= room && old(start) <= start <= old(start) + 1
      ensures |out| == k && dst[..at + k] == old(dst[..at]) + out
      ensures old(Rest()) == out + Rest()
    {
      ghost var before := dst[..at];
      assert Unread()[0] == '\n' && Unread()[1..] == buffer[start + 1..stop] + file;
      k, out := 0, [];
      if !r {
        dst[at] := '\r';
        k, out := 1, ['\r'];
        assert dst[..at + 1] == before + out;
        if k == room {
          r := true;
          return;
        }
      } else {
        r := false;
      }
      dst[at + k] := buffer[start];
      start := start + 1;
      k, out := k + 1, out + ['\n'];
      assert dst[..at + k] == before + out;
    }

    /** One turn of the flush loop: the run up to the next newline, then the newline itself. */
    method Turn(dst: array<char>, at: nat, room: nat) returns (k: nat, ghost out: seq<char>)
      requires Valid() && dst != buffer && 0 < room && at + room <= dst.Length && start < stop
      modifies this`start, this`r, dst
      ensures Valid() && 0 < k <= room && old(start) <= start
      ensures |out| == k && dst[..at + k] == old(dst[..at]) + out
      ensures old(Rest()) == out + Rest()
    {
      hide Rest;
      var q := FindNewline(start);
      k, out := q - start, [];
      if k > 0 {
        if k > room { k := room; }
        assert '\n' !in buffer[start..start + k];
        out := CopyRun(dst, at, k);
      }
      if k == room { return; }
      if q < stop {
        var n;
        ghost var nl;
        ghost var due := Rest();
        n, nl := EmitNewline(dst, at + k, room - k);
        assert out + due == (out + nl) + Rest();
        assert old(dst[..at]) + out + nl == old(dst[..at]) + (out + nl);
        k, out := k + n, out + nl;
      }
    }

    /** The flush loop: convert the window into dst until it is used up or dst is full. */
    method Convert(dst: array<char>, at: nat, size: nat) returns (count: nat, ghost out: seq<char>)
      requires Valid() && dst != buffer && at + size <= dst.Length
      modifies this`start, this`r, dst
      ensures Valid() && old(start) <= start && count <= size
      ensures |out| == count && dst[..at + count] == old(dst[..at]) + out
      ensures old(Rest()) == out + Rest()
      ensures count < size ==> start == stop
      ensures old(start) < stop && 0 < size ==> 0 < count
    {
      hide Rest;
      count, out := 0, [];
      while count < size && start < stop
        invariant Valid() && old(start) <= start && count <= size
        invariant |out| == count && dst[..at + count] == old(dst[..at]) + out
        invariant old(Rest()) == out + Rest()
        invariant count > 0 || start == old(start)
        decreases size - count
      {
        var k;
        ghost var piece;
        ghost var due := Rest();
        k, piece := Turn(dst, at + count, size - count);
        assert out + due == (out + piece) + Rest();
        assert old(dst[..at]) + out + piece == old(dst[..at]) + (out + piece);
        count, out := count + k, out + piece;
      }
    }

    /** message_buffer_flush */
    method Flush(dst: array<char>, at: nat, size: nat) returns (count: nat)
      requires Valid() && dst != buffer && at + size <= dst.Length
      modifies this`start, this`stop, this`r, this`mda, dst
      ensures Valid() && count <= size && dst[..at] == old(dst[..at])
      ensures old(Rest()) == dst[at..at + count] + Rest()
      ensures hasMda ==> mda + Unread() == old(mda + Unread())
      ensures !hasMda ==> mda == old(mda)
      ensures |Unread()| <= old(|Unread()|)
      ensures count < size ==> start == stop == 0
      ensures old(start) < old(stop) && 0 < size ==> 0 < count
    {
      hide Crlf;
      var s := start;
      ghost var out;
      ghost var before := dst[..at];
      count, out := Convert(dst, at, size);
      assert dst[at..at + count] == out && dst[..at] == before;
      assert buffer[s..stop] == buffer[s..start] + buffer[start..stop];
      if hasMda && start != s {
        mda := mda + buffer[s..start];
      }
      if start == stop {
        start, stop := 0, 0;
      }
    }

    /** message_read: a short count happens only when the whole message has been delivered. */
    method Read(dst: array<char>, size: nat) returns (count: nat)
      requires Valid() && dst != buffer && size <= dst.Length
      modifies this, dst, buffer
      ensures Valid() && count <= size
      ensures old(Rest()) == dst[..count] + Rest()
      ensures hasMda ==> mda + Unread() == old(mda + Unread())
      ensures !hasMda ==> mda == old(mda)
      ensures |Unread()| <= old(|Unread()|)
      ensures count < size ==> Unread() == []
    {
      hide Crlf;
      count := Flush(dst, 0, size);
      assert dst[0..count] == dst[..count];
      while count != size
        invariant Valid() && count <= size
        invariant old(Rest()) == dst[..count] + Rest()
        invariant hasMda ==> mda + Unread() == old(mda + Unread())
        invariant !hasMda ==> mda == old(mda)
        invariant |Unread()| <= old(|Unread()|)
        invariant count < size ==> start == stop == 0
        decreases size - count
      {
        Fill();
        ghost var before, ended, due := dst[..count], start == stop, Rest();
        var n := Flush(dst, count, size - count);
        assert dst[..count + n] == before + dst[count..count + n];
        assert before + due == dst[..count + n] + Rest();
        if n == 0 {
          assert ended;
          break;
        }
        count := count + n;
      }
    }
  }

  /** Reads of any sizes, with fills of any sizes: the output is the converted message. */
  method ReadAll(bufferSize: nat, held: seq<char>, file: seq<char>, sizes: seq<nat>)
    returns (out: seq<char>, mda: seq<char>, ended: bool)
    requires 0 < bufferSize && |held| <= bufferSize
    ensures out <= Crlf(false, held + file) && mda <= held + file
    ensures ended ==> out == Crlf(false, held + file) && mda == held + file
    ensures !ended ==> |out| == Total(sizes)
  {
    hide Crlf;
    var m := new Message(bufferSize, held, file, true);
    ghost var message := held + file;
    out, ended := [], false;
    for i := 0 to |sizes|
      invariant fresh(m) && fresh(m.buffer) && m.Valid() && m.hasMda
      invariant out + m.Rest() == Crlf(false, message)
      invariant m.mda + m.Unread() == message
      invariant ended ==> m.Unread() == []
      invariant !ended ==> |out| == Total(sizes[..i])
    {
      var dst := new char[sizes[i]];
      var n := m.Read(dst, sizes[i]);
      out := out + dst[..n];
      ended := ended || n < sizes[i];
      assert sizes[..i + 1][..i] == sizes[..i];
    }
    assert sizes[..|sizes|] == sizes;
    NothingLeft(m.r);
    mda := m.mda;
  }

  lemma {:induction false} NothingLeft(r: bool)
    ensures Crlf(r, []) == []
  {}

  function Total(sizes: seq<nat>): nat {
    if sizes == [] then 0 else Total(sizes[..|sizes| - 1]) + sizes[|sizes| - 1]
  }
}
