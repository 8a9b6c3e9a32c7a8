/** The account of sessions closed and PADTs sent: every change the server's events make to its lists
    and its log, and why a closed session always has a PADT of its own. */
module SessionLedger {
  import opened Bytes
  import opened SessionLists

  /** A PADT put on the wire. */
  datatype Padt = Padt(sess: nat, dest: Mac)

  ghost predicate SentTo(log: seq<Padt>, from: nat, p: Padt) {
    exists k :: from <= k < |log| && log[k] == p
  }

  lemma {:induction false} SentToMore(log: seq<Padt>, from: nat, p: Padt, q: Padt)
    ensures SentTo(log, from, p) ==> SentTo(log + [q], from, p)
    ensures from <= |log| ==> SentTo(log + [p], from, p)
  {
    if SentTo(log, from, p) {
      var k :| from <= k < |log| && log[k] == p;
      assert (log + [q])[k] == p;
    }
    if from <= |log| { assert (log + [p])[|log|] == p; }
  }

  /** The lists, the PADTs sent so far, and for each slot how many had been sent when its current
      session began. */
  datatype Book = Book(lists: Lists, log: seq<Padt>, born: seq<nat>)

  ghost predicate Kept(b: Book) {
    Partition(b.lists, |b.born|) && forall i :: 0 <= i < |b.born| ==> b.born[i] <= |b.log|
  }

  // ----- the changes

  ghost predicate Started(b: Book, c: Book) {
    && b.lists.free != [] && b.lists.free[0] < |b.born|
    && c == Book(Take(b.lists), b.log, b.born[b.lists.free[0] := |b.log|])
  }

  /** A failed fork: the slot goes to the end of the free list. */
  ghost predicate Rotated(b: Book, c: Book) {
    && b.lists.free != [] && c.lists == Lists(b.lists.free[1..] + [b.lists.free[0]], b.lists.busy)
    && c.log == b.log && |c.born| == |b.born|
    && forall i :: 0 <= i < |b.born| && i in b.lists.busy ==> c.born[i] == b.born[i]
  }

  ghost predicate Logged(b: Book, c: Book) {
    c.lists == b.lists && c.born == b.born && b.log <= c.log
  }

  /** A change that closes no session. */
  ghost predicate Goes(b: Book, c: Book) { Started(b, c) || Rotated(b, c) || Logged(b, c) }

  /** The session of slot x, whose PADT is p, is closed. */
  ghost predicate Closed(b: Book, c: Book, x: nat, p: Padt) {
    && x < |b.born| && x in b.lists.busy && c.lists == Give(b.lists, x) && c.born == b.born && b.log <= c.log
    && SentTo(c.log, b.born[x], p)
  }

  // ----- counting

  function Times(s: seq<Padt>, p: Padt): nat {
    if s == [] then 0 else Times(s[..|s| - 1], p) + if s[|s| - 1] == p then 1 else 0
  }

  lemma {:induction false} TimesPrefix(s: seq<Padt>, n: nat, p: Padt)
    requires n <= |s|
    ensures Times(s[..n], p) <= Times(s, p)
    decreases |s|
  {
    if n == |s| {
      assert s[..n] == s;
    } else {
      var t := s[..|s| - 1];
      assert t[..n] == s[..n];
      TimesPrefix(t, n, p);
    }
  }

  lemma {:induction false} OneMoreTime(s: seq<Padt>, n: nat, p: Padt)
    requires n <= |s| && SentTo(s, n, p)
    ensures Times(s[..n], p) + 1 <= Times(s, p)
    decreases |s|
  {
    var k :| n <= k < |s| && s[k] == p;
    var t := s[..|s| - 1];
    assert t[..n] == s[..n];
    if k == |s| - 1 {
      TimesPrefix(t, n, p);
    } else {
      assert t[k] == p;
      OneMoreTime(t, n, p);
    }
  }

  // ----- the account

  /** What counts for slot i: while it is busy, only the PADTs sent before its session began. */
  function Since(b: Book, i: nat): nat
    requires i < |b.born|
  {
    if i in b.lists.busy then b.born[i] else |b.log|
  }

  /** The sessions with PADT p closed so far are covered by the first n PADTs sent. */
  ghost predicate Covered(closed: seq<Padt>, log: seq<Padt>, n: nat, p: Padt) {
    n <= |log| && Times(closed, p) <= Times(log[..n], p)
  }

  ghost predicate SettledAt(closed: seq<Padt>, b: Book, offset: nat, i: nat)
    requires i < |b.born|
  {
    forall p: Padt :: p.sess == i + 1 + offset ==> Covered(closed, b.log, Since(b, i), p)
  }

  /** Slot i has the session number i + 1 + offset; every closed session is some slot's. */
  ghost predicate Settled(closed: seq<Padt>, b: Book, offset: nat) {
    && (forall i :: 0 <= i < |b.born| ==> SettledAt(closed, b, offset, i))
    && (forall k :: 0 <= k < |closed| ==> offset < closed[k].sess <= |b.born| + offset)
  }

  lemma {:induction false} CoveredMore(closed: seq<Padt>, log: seq<Padt>, n: nat, log': seq<Padt>, n': nat, p: Padt)
    requires Covered(closed, log, n, p) && log <= log' && n <= n' <= |log'|
    ensures Covered(closed, log', n', p)
  {
    var t := log'[..n'];
    assert t[..n] == log[..n];
    TimesPrefix(t, n, p);
  }

  /** A change that lets more of the log count for every slot keeps the account settled. */
  lemma {:induction false} SettledMore(closed: seq<Padt>, b: Book, c: Book, offset: nat)
    requires Settled(closed, b, offset) && b.log <= c.log && |c.born| == |b.born|
    requires forall i :: 0 <= i < |b.born| ==> Since(b, i) <= Since(c, i) <= |c.log|
    ensures Settled(closed, c, offset)
  {
    hide Since, Covered;
    forall i | 0 <= i < |c.born| ensures SettledAt(closed, c, offset, i) {
      assert SettledAt(closed, b, offset, i);
      forall p: Padt | p.sess == i + 1 + offset ensures Covered(closed, c.log, Since(c, i), p) {
        CoveredMore(closed, b.log, Since(b, i), c.log, Since(c, i), p);
      }
    }
  }

  lemma {:induction false} GoesSettled(closed: seq<Padt>, b: Book, c: Book, offset: nat)
    requires Settled(closed, b, offset) && Kept(b) && Goes(b, c)
    ensures Settled(closed, c, offset)
  {
    hide Settled, Partition;
    if Started(b, c) && !Logged(b, c) && !Rotated(b, c) {
      forall i | 0 <= i < |b.born| ensures Since(b, i) <= Since(c, i) <= |c.log| {
        assert i in Take(b.lists).busy <==> i == b.lists.free[0] || i in b.lists.busy;
      }
    }
    SettledMore(closed, b, c, offset);
  }

  lemma {:induction false} TimesAdd(s: seq<Padt>, p: Padt, q: Padt)
    ensures Times(s + [p], q) == Times(s, q) + if p == q then 1 else 0
  {
    assert (s + [p])[..|s|] == s;
  }

  /** Closing a session settles it too: one of the PADTs sent since it began is its own. */
  lemma {:induction false} CloseSettles(closed: seq<Padt>, b: Book, c: Book, x: nat, p: Padt, offset: nat)
    requires Settled(closed, b, offset) && Kept(b) && Closed(b, c, x, p) && p.sess == x + 1 + offset
    ensures Settled(closed + [p], c, offset)
  {
    hide Partition, Without, Times, SentTo;
    BusyWithout(b.lists, x, |b.born|);
    forall i | 0 <= i < |c.born| ensures SettledAt(closed + [p], c, offset, i) {
      assert SettledAt(closed, b, offset, i);
      forall q: Padt | q.sess == i + 1 + offset ensures Covered(closed + [p], c.log, Since(c, i), q) {
        TimesAdd(closed, p, q);
        CoveredMore(closed, b.log, Since(b, i), c.log, Since(c, i), q);
        if q == p {
          OneMoreTime(c.log, b.born[x], p);
          assert c.log[..b.born[x]] == b.log[..b.born[x]];
          assert c.log[..|c.log|] == c.log;
        }
      }
    }
  }

  lemma {:induction false} BusyWithout(l: Lists, x: nat, n: nat)
    requires Partition(l, n) && x in l.busy
    ensures forall i :: i in Give(l, x).busy <==> i in l.busy && i != x
  {
    hide Without;
    NoDupRight(l.free, l.busy);
    WithoutMembers(l.busy, x);
  }

  lemma {:induction false} NeverClosed(closed: seq<Padt>, p: Padt)
    requires forall k :: 0 <= k < |closed| ==> closed[k].sess != p.sess
    ensures Times(closed, p) == 0
    decreases |closed|
  {
    if closed != [] { NeverClosed(closed[..|closed| - 1], p); }
  }

  /** A settled account: at least as many PADTs for a peer and number as sessions closed under them. */
  lemma {:induction false} EverySessionPaid(closed: seq<Padt>, b: Book, offset: nat, p: Padt)
    requires Settled(closed, b, offset)
    ensures Times(closed, p) <= Times(b.log, p)
  {
    if offset < p.sess <= |b.born| + offset {
      var i := p.sess - 1 - offset;
      assert SettledAt(closed, b, offset, i);
      assert Covered(closed, b.log, Since(b, i), p);
      TimesPrefix(b.log, Since(b, i), p);
    } else {
      NeverClosed(closed, p);
    }
  }

  // ----- the history of the lists

  /** The list operation behind a change that closes no session. */
  function OpFor(b: Book, c: Book): Op {
    if c.lists == b.lists then Stay else if c.lists == Take(b.lists) then Allocate else Rotate
  }

  lemma {:induction false} GoesOp(b: Book, c: Book)
    requires Goes(b, c)
    ensures Apply(b.lists, OpFor(b, c)) == c.lists && !OpFor(b, c).Release?
    ensures Logged(b, c) ==> OpFor(b, c) == Stay
  {
    hide Take, Give;
  }

  lemma {:induction false} GoesGrows(b: Book, c: Book)
    requires Goes(b, c)
    ensures b.log <= c.log
  {
    hide Take;
  }

  /** The closed sessions are those whose slots the history released, in order. */
  ghost predicate Accounts(closed: seq<Padt>, start: Lists, ops: seq<Op>, offset: nat) {
    && |closed| == |Ended(start, ops)|
    && forall k :: 0 <= k < |closed| ==> closed[k].sess == Ended(start, ops)[k] + 1 + offset
  }

  /** The book is what the history made of the start, with every session it closed settled. */
  ghost predicate Books(closed: seq<Padt>, b: Book, offset: nat, start: Lists, ops: seq<Op>) {
    Settled(closed, b, offset) && b.lists == Run(start, ops) && Accounts(closed, start, ops, offset)
  }

  lemma {:induction false} BooksGo(closed: seq<Padt>, b: Book, c: Book, offset: nat, start: Lists, ops: seq<Op>)
    requires Books(closed, b, offset, start, ops) && Kept(b) && Goes(b, c)
    ensures Books(closed, c, offset, start, ops + [OpFor(b, c)])
  {
    hide Goes, Settled, Run, Partition, Ended, OpFor, Apply;
    GoesSettled(closed, b, c, offset);
    GoesOp(b, c);
    RunSnoc(start, ops, OpFor(b, c));
    EndedSnoc(start, ops, OpFor(b, c));
  }

  lemma {:induction false} BooksClose(closed: seq<Padt>, b: Book, c: Book, x: nat, p: Padt, offset: nat,
                                      start: Lists, ops: seq<Op>)
    requires Books(closed, b, offset, start, ops) && Kept(b)
    requires Closed(b, c, x, p) && p.sess == x + 1 + offset
    ensures Books(closed + [p], c, offset, start, ops + [Release(x)])
  {
    hide Settled, Run, Partition, Ended, SentTo, Give;
    CloseSettles(closed, b, c, x, p, offset);
    RunSnoc(start, ops, Release(x));
    EndedSnoc(start, ops, Release(x));
  }

  /** An exit that finds no session. */
  lemma {:induction false} BooksStay(closed: seq<Padt>, b: Book, x: nat, offset: nat, start: Lists, ops: seq<Op>)
    requires Books(closed, b, offset, start, ops) && x !in b.lists.busy
    ensures Books(closed, b, offset, start, ops + [Release(x)])
  {
    hide Settled, Run, Ended, Without;
    RunSnoc(start, ops, Release(x));
    EndedSnoc(start, ops, Release(x));
  }

  lemma {:induction false} BooksOpen(b: Book, offset: nat)
    requires Kept(b)
    ensures Books([], b, offset, b.lists, [])
  {
    hide Partition;
    Unsettled(b);
  }

  lemma {:induction false} Balance(closed: seq<Padt>, b: Book, offset: nat, start: Lists, ops: seq<Op>)
    requires Books(closed, b, offset, start, ops)
    ensures b.lists == Run(start, ops) && Accounts(closed, start, ops, offset)
    ensures forall p: Padt :: Times(closed, p) <= Times(b.log, p)
  {
    hide Settled, Run, Ended, Times;
    forall p: Padt ensures Times(closed, p) <= Times(b.log, p) {
      EverySessionPaid(closed, b, offset, p);
    }
  }

  lemma {:induction false} Unsettled(b: Book)
    requires Kept(b)
    ensures forall offset: nat :: Settled([], b, offset)
  {
  }

  lemma {:induction false} JustLogged(b: Book, c: Book)
    requires Logged(b, c)
    ensures Goes(b, c)
  {
  }

  lemma {:induction false} JustStarted(b: Book, c: Book)
    requires b.lists.free != [] && b.lists.free[0] < |b.born| && c.lists == Take(b.lists) && c.log == b.log
    requires c.born == b.born[b.lists.free[0] := |b.log|]
    ensures Goes(b, c)
  {
  }

  lemma {:induction false} JustRotated(b: Book, c: Book)
    requires b.lists.free != [] && b.lists.free[0] < |b.born| && b.lists.free[0] !in b.lists.busy
    requires c.lists == Lists(b.lists.free[1..] + [b.lists.free[0]], b.lists.busy) && c.log == b.log
    requires c.born == b.born[b.lists.free[0] := |b.log|]
    ensures Goes(b, c)
  {
    assert Rotated(b, c);
  }

  lemma {:induction false} TakeOne(l: Lists)
    ensures Take(l) == if l.free == [] then l else Lists(l.free[1..], [l.free[0]] + l.busy)
  {
  }
}
