/** The two lists of session slots as plain sequences: allocation takes the first free slot,
    release appends.  Proves the queue law that decides when a released slot can come back. */
module SessionLists {

  datatype Lists = Lists(free: seq<nat>, busy: seq<nat>)

  ghost predicate NoDup(s: seq<nat>) {
    forall i, j :: 0 <= i < j < |s| ==> s[i] != s[j]
  }

  /** Every slot number below n is on exactly one of the lists, once. */
  ghost predicate Partition(l: Lists, n: nat) {
    && NoDup(l.free + l.busy)
    && |l.free| + |l.busy| == n
    && forall i: nat :: i in l.free + l.busy <==> i < n
  }

  function Take(l: Lists): Lists {
    if l.free == [] then l else Lists(l.free[1..], [l.free[0]] + l.busy)
  }

  function IndexOf(s: seq<nat>, x: nat): (k: nat)
    requires x in s
    ensures k < |s| && s[k] == x && x !in s[..k]
  {
    if s[0] == x then 0 else
      assert s == [s[0]] + s[1..];
      1 + IndexOf(s[1..], x)
  }

  function Without(s: seq<nat>, x: nat): seq<nat> {
    if x in s then s[..IndexOf(s, x)] + s[IndexOf(s, x) + 1..] else s
  }

  function Give(l: Lists, x: nat): Lists {
    if x in l.busy then Lists(l.free + [x], Without(l.busy, x)) else l
  }

  lemma {:induction false} TakeKeepsPartition(l: Lists, n: nat)
    requires Partition(l, n)
    ensures Partition(Take(l), n)
  {
    if l.free != [] {
      var a, b := l.free + l.busy, Take(l).free + Take(l).busy;
      var x, m := l.free[0], |l.free| - 1;
      assert a == [x] + l.free[1..] + l.busy;
      assert b == l.free[1..] + [x] + l.busy;
      forall i, j | 0 <= i < j < |b| ensures b[i] != b[j] {
        var i' := if i < m then i + 1 else if i == m then 0 else i;
        var j' := if j < m then j + 1 else if j == m then 0 else j;
        assert b[i] == a[i'] && b[j] == a[j'] && i' != j';
      }
      forall i: nat ensures i in b <==> i < n { assert i in b <==> i in a; }
    }
  }

  /** Taking x out of the middle and putting it at the end of the front keeps the members distinct. */
  lemma {:induction false} MovedNoDup(f: seq<nat>, a: seq<nat>, x: nat, b: seq<nat>)
    requires NoDup(f + (a + [x] + b))
    ensures NoDup(f + [x] + (a + b))
  {
    var before, after := f + (a + [x] + b), f + [x] + (a + b);
    var m, k := |f|, |a|;
    forall i, j | 0 <= i < j < |after| ensures after[i] != after[j] {
      var i' := if i < m then i else if i == m then m + k else if i <= m + k then i - 1 else i;
      var j' := if j < m then j else if j == m then m + k else if j <= m + k then j - 1 else j;
      assert after[i] == before[i'] && after[j] == before[j'];
    }
  }

  lemma {:induction false} MovedMembers(f: seq<nat>, a: seq<nat>, x: nat, b: seq<nat>, i: nat)
    ensures i in f + [x] + (a + b) <==> i in f + (a + [x] + b)
  {
  }

  lemma {:induction false} SplitAt(s: seq<nat>, x: nat)
    requires x in s
    ensures var k := IndexOf(s, x);
            s == s[..k] + [x] + s[k + 1..] && Without(s, x) == s[..k] + s[k + 1..] && x !in s[..k]
  {
    hide IndexOf;
  }

  lemma {:induction false} GiveKeepsPartition(l: Lists, x: nat, n: nat)
    requires Partition(l, n)
    ensures Partition(Give(l, x), n)
  {
    hide IndexOf, Without, NoDup;
    if x in l.busy {
      SplitAt(l.busy, x);
      var k := IndexOf(l.busy, x);
      var a, b := l.busy[..k], l.busy[k + 1..];
      MovedNoDup(l.free, a, x, b);
      forall i: nat ensures i in l.free + [x] + (a + b) <==> i < n {
        MovedMembers(l.free, a, x, b, i);
      }
    }
  }

  /** Each slot is on one list and not on the other. */
  lemma {:induction false} OnExactlyOneList(l: Lists, n: nat, i: nat)
    requires Partition(l, n) && i < n
    ensures (i in l.free) != (i in l.busy)
  {
    assert i in l.free + l.busy;
    if i in l.free {
      var j := IndexOf(l.free, i);
      forall k | 0 <= k < |l.busy| ensures l.busy[k] != i {
        assert (l.free + l.busy)[j] != (l.free + l.busy)[|l.free| + k];
      }
    }
  }

  // ----- whole histories

  /** Rotate is a slot taken and put back at once; Stay leaves the lists alone. */
  datatype Op = Allocate | Release(slot: nat) | Rotate | Stay

  function Apply(l: Lists, op: Op): Lists {
    match op
    case Allocate => Take(l)
    case Release(x) => Give(l, x)
    case Rotate => if l.free == [] then l else Lists(l.free[1..] + [l.free[0]], l.busy)
    case Stay => l
  }

  function Run(l: Lists, ops: seq<Op>): Lists
    decreases |ops|
  {
    if ops == [] then l else Run(Apply(l, ops[0]), ops[1..])
  }

  /** What one operation hands out and puts back. */
  function TakenBy(l: Lists, op: Op): seq<nat> {
    if (op.Allocate? || op.Rotate?) && l.free != [] then [l.free[0]] else []
  }

  function GivenBy(l: Lists, op: Op): seq<nat> {
    if op.Release? && op.slot in l.busy then [op.slot]
    else if op.Rotate? && l.free != [] then [l.free[0]]
    else []
  }

  /** Slots handed out, in order, and slots put back, in order. */
  function Taken(l: Lists, ops: seq<Op>): seq<nat>
    decreases |ops|
  {
    if ops == [] then []
    else TakenBy(l, ops[0]) + Taken(Apply(l, ops[0]), ops[1..])
  }

  function Given(l: Lists, ops: seq<Op>): seq<nat>
    decreases |ops|
  {
    if ops == [] then []
    else GivenBy(l, ops[0]) + Given(Apply(l, ops[0]), ops[1..])
  }

  lemma {:induction false} OneOperation(l: Lists, op: Op)
    ensures l.free + GivenBy(l, op) == TakenBy(l, op) + Apply(l, op).free
  {
    hide Without;
  }

  lemma {:induction false} FirstOperation(l: Lists, ops: seq<Op>)
    requires ops != []
    ensures var m := Apply(l, ops[0]);
            && Taken(l, ops) == TakenBy(l, ops[0]) + Taken(m, ops[1..])
            && Given(l, ops) == GivenBy(l, ops[0]) + Given(m, ops[1..])
            && Run(l, ops) == Run(m, ops[1..])
  {
    hide Apply;
  }

  lemma {:induction false} Rearrange(f: seq<nat>, g1: seq<nat>, t1: seq<nat>, m: seq<nat>,
                                     g2: seq<nat>, t2: seq<nat>, end: seq<nat>)
    requires f + g1 == t1 + m && m + g2 == t2 + end
    ensures f + (g1 + g2) == (t1 + t2) + end
  {
    assert f + (g1 + g2) == (f + g1) + g2;
    assert (t1 + m) + g2 == t1 + (m + g2);
    assert t1 + (t2 + end) == (t1 + t2) + end;
  }

  /** The free list is a first-in first-out queue over every history. */
  lemma {:induction false} QueueLaw(l: Lists, ops: seq<Op>)
    ensures l.free + Given(l, ops) == Taken(l, ops) + Run(l, ops).free
    decreases |ops|
  {
    if ops == [] {
      NoOperations(l);
    } else {
      hide *;
      var m := Apply(l, ops[0]);
      QueueLaw(m, ops[1..]);
      FirstOperation(l, ops);
      OneOperation(l, ops[0]);
      Rearrange(l.free, GivenBy(l, ops[0]), TakenBy(l, ops[0]), m.free,
                Given(m, ops[1..]), Taken(m, ops[1..]), Run(m, ops[1..]).free);
    }
  }

  lemma {:induction false} NoOperations(l: Lists)
    ensures l.free + Given(l, []) == Taken(l, []) + Run(l, []).free
  {
  }

  /** A slot released behind others comes back only after every slot that was free before it. */
  lemma {:induction false} ReleasedSlotWaits(l: Lists, x: nat, ops: seq<Op>, j: nat)
    requires NoDup(l.free + [x]) && x in l.busy
    requires var after := Give(l, x); j < |Taken(after, ops)| && Taken(after, ops)[j] == x
    ensures j >= |l.free|
    ensures l.free <= Taken(Give(l, x), ops)[..j]
  {
    var after := Give(l, x);
    var taken := Taken(after, ops);
    QueueLaw(after, ops);
    var q := after.free + Given(after, ops);
    assert q[..|l.free|] == l.free;
    forall i | 0 <= i < |l.free| && i < |taken| ensures taken[i] == l.free[i] != x {
      assert taken[i] == q[i];
      assert (l.free + [x])[i] != (l.free + [x])[|l.free|];
    }
  }

  // ----- members and histories

  lemma {:induction false} NoDupRight(f: seq<nat>, t: seq<nat>)
    requires NoDup(f + t)
    ensures NoDup(t) && forall x :: x in t ==> x !in f
  {
    var all := f + t;
    assert forall k :: 0 <= k < |t| ==> t[k] == all[|f| + k];
    assert forall k :: 0 <= k < |f| ==> f[k] == all[k];
  }

  lemma {:induction false} NotLater(a: seq<nat>, x: nat, b: seq<nat>)
    requires NoDup(a + [x] + b)
    ensures x !in b
  {
    var s := a + [x] + b;
    forall j | 0 <= j < |b| ensures b[j] != x {
      assert s[|a|] == x && s[|a| + 1 + j] == b[j];
    }
  }

  lemma {:induction false} WithoutMembers(list: seq<nat>, x: nat)
    requires NoDup(list) && x in list
    ensures forall i :: i in Without(list, x) <==> i in list && i != x
  {
    hide IndexOf, Without, NoDup;
    SplitAt(list, x);
    var k := IndexOf(list, x);
    var a, b := list[..k], list[k + 1..];
    NotLater(a, x, b);
    forall i ensures i in a + b <==> i in a + [x] + b && i != x {
    }
  }

  lemma {:induction false} WithoutHead(x: nat, list: seq<nat>)
    ensures x in [x] + list && Without([x] + list, x) == list
  {
    assert ([x] + list)[0] == x;
    assert IndexOf([x] + list, x) == 0;
  }

  lemma {:induction false} RunSnoc(l: Lists, ops: seq<Op>, op: Op)
    ensures Run(l, ops + [op]) == Apply(Run(l, ops), op)
    decreases |ops|
  {
    hide Apply;
    if ops == [] {
      assert [op][1..] == [];
      assert [] + [op] == [op];
    } else {
      assert (ops + [op])[1..] == ops[1..] + [op];
      RunSnoc(Apply(l, ops[0]), ops[1..], op);
    }
  }

  /** The slots whose release ended a session, in order. */
  function Ended(l: Lists, ops: seq<Op>): seq<nat>
    decreases |ops|
  {
    if ops == [] then []
    else
      var before, op := ops[..|ops| - 1], ops[|ops| - 1];
      Ended(l, before) + if op.Release? && op.slot in Run(l, before).busy then [op.slot] else []
  }

  lemma {:induction false} EndedSnoc(l: Lists, ops: seq<Op>, op: Op)
    ensures Ended(l, ops + [op])
            == Ended(l, ops) + if op.Release? && op.slot in Run(l, ops).busy then [op.slot] else []
  {
    hide Run;
    assert (ops + [op])[..|ops|] == ops;
  }
}
