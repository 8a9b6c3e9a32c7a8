/** The server's session slots: an array with two intrusive lists running through it, a queue of free
    slots and a stack of busy ones, changed by PADR, PADT and child-exit events. */
module SessionPool {
  import opened Bytes
  import opened SessionLists
  import opened SessionLedger

  type Ip = a: seq<byte> | |a| == 4 witness [0, 0, 0, 0]

  const NULL := -1

  /** ClientSession; `next` is a slot number or NULL, and the two flags are FLAG_RECVD_PADT and
      FLAG_SENT_PADT. */
  datatype Slot = Slot(next: int, pid: nat, hasInterface: bool, peerip: Ip, sess: nat, eth: Mac,
                       recvdPadt: bool, sentPadt: bool)

  // ----- addresses

  function Value(a: Ip): (v: nat)
    ensures v < 0x1_0000_0000
  {
    var a0: int, a1: int, a2: int, a3: int := a[0], a[1], a[2], a[3];
    a0 * 0x100_0000 + a1 * 0x1_0000 + a2 * 0x100 + a3
  }

  /** 32-bit addition. */
  function Plus(v: nat, i: nat): nat {
    (v + i) % 0x1_0000_0000
  }

  lemma {:induction false} PlusZero(v: nat)
    requires v < 0x1_0000_0000
    ensures Plus(v, 0) == v
  {}

  lemma {:induction false} PlusOne(v: nat, i: nat)
    ensures Plus(Plus(v, i), 1) == Plus(v, i + 1)
  {}

  lemma {:induction false} PlusInjective(v: nat, i: nat, j: nat)
    requires i < j < 0x1_0000_0000 || j < i < 0x1_0000_0000
    ensures Plus(v, i) != Plus(v, j)
  {}

  function Next(b: byte): byte {
    if b == 255 then 0 else b + 1
  }

  /** incrementIPAddress: four bytes with carries are one 32-bit counter. */
  method IncrementIp(a: Ip) returns (b: Ip)
    ensures Value(b) == Plus(Value(a), 1)
  {
    b := a[3 := Next(a[3])];
    if b[3] == 0 {
      b := b[2 := Next(b[2])];
      if b[2] == 0 {
        b := b[1 := Next(b[1])];
        if b[1] == 0 {
          b := b[0 := Next(b[0])];
        }
      }
    }
  }

  // ----- lists through the array

  function Head(list: seq<nat>): int {
    if list == [] then NULL else list[0]
  }

  function Last(list: seq<nat>): int {
    if list == [] then NULL else list[|list| - 1]
  }

  predicate Below(list: seq<nat>, n: nat) {
    forall k :: 0 <= k < |list| ==> list[k] < n
  }

  /** The slot at position k of the list points to the one after it. */
  ghost predicate LinkAt(slots: seq<Slot>, list: seq<nat>, k: nat)
    requires k < |list|
  {
    && list[k] < |slots|
    && slots[list[k]].next == if k + 1 < |list| then list[k + 1] else NULL
  }

  ghost predicate Linked(slots: seq<Slot>, list: seq<nat>) {
    forall k :: 0 <= k < |list| ==> LinkAt(slots, list, k)
  }

  /** The listed slots whose peer is `mac`. */
  ghost function Holding(slots: seq<Slot>, list: seq<nat>, mac: Mac): set<nat>
    requires Below(list, |slots|)
  {
    set i | i in list && slots[i].eth == mac
  }

  function Swapped(p: seq<nat>, i: nat, j: nat): (q: seq<nat>)
    requires i < |p| && j < |p|
    ensures |q| == |p|
  {
    p[i := p[j]][j := p[i]]
  }

  lemma {:induction false} SwapKeeps(p: seq<nat>, i: nat, j: nat)
    requires i < |p| && j < |p|
    ensures NoDup(p) ==> NoDup(Swapped(p, i, j))
    ensures forall x :: x in Swapped(p, i, j) <==> x in p
  {
    var q := Swapped(p, i, j);
    assert q[i] == p[j] && q[j] == p[i];
    forall x | x in p ensures x in q {
      var k := IndexOf(p, x);
      assert x == q[if k == i then j else if k == j then i else k];
    }
    forall x | x in q ensures x in p {
      var k := IndexOf(q, x);
      assert x == p[if k == i then j else if k == j then i else k];
    }
  }

  /** The shuffle from position i on: each position is swapped with one at or after it, as rand chooses. */
  function Shuffled(p: seq<nat>, i: nat, rand: nat -> nat): seq<nat>
    decreases |p| - i
  {
    if i + 1 >= |p| then p else Shuffled(Swapped(p, i, i + rand(i) % (|p| - i)), i + 1, rand)
  }

  /** The random numbers that lead to a given order. */
  ghost predicate LeadTo(p: seq<nat>, i: nat, choices: seq<nat>, q: seq<nat>) {
    && |choices| == |p|
    && forall rand: nat -> nat ::
         (forall k :: i <= k < |p| ==> rand(k) == choices[k]) ==> Shuffled(p, i, rand) == q
  }

  /** Any order of the slots can come out. */
  lemma {:induction false} AnyOrderShuffled(p: seq<nat>, i: nat, q: seq<nat>) returns (choices: seq<nat>)
    requires NoDup(p) && NoDup(q) && |q| == |p| && (forall x :: x in p <==> x in q)
    requires i <= |p| && p[..i] == q[..i]
    ensures LeadTo(p, i, choices, q)
    decreases |p| - i
  {
    if i == |p| {
      choices := seq(|p|, _ => 0);
      assert p[..i] == p && q[..i] == q;
    } else {
      var j := IndexOf(p, q[i]);
      assert forall k :: 0 <= k < i ==> p[k] == p[..i][k] && q[k] == q[..i][k];
      assert j >= i;
      if i + 1 == |p| {
        choices := seq(|p|, _ => 0);
        assert p == p[..i] + [p[i]] && q == q[..i] + [q[i]];
      } else {
        var next := Swapped(p, i, j);
        SwapKeeps(p, i, j);
        assert next[..i + 1] == q[..i + 1] by {
          assert next[..i + 1] == p[..i] + [p[j]] && q[..i + 1] == q[..i] + [q[i]];
        }
        var more := AnyOrderShuffled(next, i + 1, q);
        choices := more[i := j - i];
        LeadFirst(p, i, j, more, q);
      }
    }
  }

  lemma {:induction false} LeadFirst(p: seq<nat>, i: nat, j: nat, more: seq<nat>, q: seq<nat>)
    requires i + 1 < |p| && i <= j < |p| && LeadTo(Swapped(p, i, j), i + 1, more, q)
    ensures LeadTo(p, i, more[i := j - i], q)
  {
    hide Swapped;
    var choices, next := more[i := j - i], Swapped(p, i, j);
    assert (j - i) % (|p| - i) == j - i;
    forall rand: nat -> nat | forall k :: i <= k < |p| ==> rand(k) == choices[k] ensures Shuffled(p, i, rand) == q {
      assert rand(i) == choices[i] == j - i;
      assert forall k :: i + 1 <= k < |p| ==> rand(k) == more[k];
      assert Shuffled(next, i + 1, rand) == q;
    }
  }

  lemma {:induction false} ShuffleStep(p: seq<nat>, i: nat, rand: nat -> nat)
    ensures i + 1 < |p| ==> Shuffled(p, i, rand) == Shuffled(Swapped(p, i, i + rand(i) % (|p| - i)), i + 1, rand)
    ensures i + 1 >= |p| ==> Shuffled(p, i, rand) == p
  {
  }

  lemma {:induction false} SwapSame(p: seq<nat>, i: nat)
    requires i < |p|
    ensures Swapped(p, i, i) == p
  {
  }

  lemma {:induction false} CountedUp(n: nat, start: seq<nat>)
    requires start == seq(n, i => i)
    ensures |start| == n && NoDup(start) && forall x: nat :: x in start <==> x < n
  {
    forall x: nat ensures x in start <==> x < n {
      if x < n { assert start[x] == x; }
    }
  }

  /** The free list at the start: in order, or shuffled. */
  function StartOrder(n: nat, randomize: bool, rand: nat -> nat): seq<nat> {
    var start := seq(n, i => i);
    if randomize then Shuffled(start, 0, rand) else start
  }

  /** The shuffle of main. */
  method Shuffle(n: nat, rand: nat -> nat) returns (p: seq<nat>)
    requires n > 0
    ensures Partition(Lists(p, []), n) && p == StartOrder(n, true, rand)
  {
    hide Shuffled, NoDup;
    p := seq(n, i => i);
    ghost var start := p;
    CountedUp(n, p);
    for i := 0 to n - 1
      invariant |p| == n && NoDup(p) && forall x: nat :: x in p <==> x < n
      invariant Shuffled(p, i, rand) == Shuffled(start, 0, rand)
    {
      var j := i + rand(i) % (n - i);
      SwapKeeps(p, i, j);
      SwapSame(p, i);
      ShuffleStep(p, i, rand);
      if j != i {
        p := p[i := p[j]][j := p[i]];
      }
    }
    ShuffleStep(p, n - 1, rand);
    assert p + [] == p;
  }

  lemma {:induction false} LinkedBelow(slots: seq<Slot>, list: seq<nat>)
    requires Linked(slots, list)
    ensures Below(list, |slots|)
  {
    forall k | 0 <= k < |list| ensures list[k] < |slots| { assert LinkAt(slots, list, k); }
  }

  lemma {:induction false} LinkedElsewhere(slots: seq<Slot>, list: seq<nat>, i: nat, s: Slot)
    requires Linked(slots, list) && i < |slots| && i !in list
    ensures Linked(slots[i := s], list)
  {
    var after := slots[i := s];
    forall k | 0 <= k < |list| ensures LinkAt(after, list, k) { assert LinkAt(slots, list, k); }
  }

  lemma {:induction false} LinkedTail(slots: seq<Slot>, list: seq<nat>)
    requires Linked(slots, list) && list != []
    ensures list[0] < |slots| && Head(list[1..]) == slots[list[0]].next
    ensures Linked(slots, list[1..])
  {
    assert LinkAt(slots, list, 0);
    forall k | 0 <= k < |list[1..]| ensures LinkAt(slots, list[1..], k) { assert LinkAt(slots, list, k + 1); }
  }

  lemma {:induction false} LinkedPush(slots: seq<Slot>, x: nat, list: seq<nat>)
    requires Linked(slots, list) && x < |slots| && slots[x].next == Head(list)
    ensures Linked(slots, [x] + list)
  {
    forall k | 0 <= k < |[x] + list| ensures LinkAt(slots, [x] + list, k) {
      if k > 0 { assert LinkAt(slots, list, k - 1); }
    }
  }

  lemma {:induction false} HeadElsewhere(f: seq<nat>, b: seq<nat>)
    requires NoDup(f + b) && f != []
    ensures f[0] !in f[1..] && f[0] !in b
  {
    var all := f + b;
    assert all[0] == f[0];
    forall k | 0 <= k < |f| - 1 ensures f[1..][k] != f[0] { assert f[1..][k] == all[k + 1]; }
    forall k | 0 <= k < |b| ensures b[k] != f[0] { assert b[k] == all[|f| + k]; }
  }

  /** Unlinking the head of the free list and pushing it on the busy list. */
  lemma {:induction false} LinkedTake(slots: seq<Slot>, l: Lists, x: Slot)
    requires NoDup(l.free + l.busy) && l.free != []
    requires Below(l.free, |slots|)
    requires Linked(slots, l.free) && Linked(slots, l.busy) && x.next == Head(l.busy)
    ensures var after := slots[l.free[0] := x];
            Linked(after, Take(l).free) && Linked(after, Take(l).busy)
  {
    hide Linked, NoDup;
    var i := l.free[0];
    LinkedTail(slots, l.free);
    HeadElsewhere(l.free, l.busy);
    LinkedElsewhere(slots, l.free[1..], i, x);
    LinkedElsewhere(slots, l.busy, i, x);
    LinkedPush(slots[i := x], i, l.busy);
  }

  /** Skipping x, between a and b, by its predecessor. */
  function Skip(slots: seq<Slot>, a: seq<nat>, next: int): (after: seq<Slot>)
    requires Below(a, |slots|)
    ensures |after| == |slots|
  {
    if a == [] then slots else slots[a[|a| - 1] := slots[a[|a| - 1]].(next := next)]
  }

  lemma {:induction false} LinkedSkip(slots: seq<Slot>, a: seq<nat>, x: nat, b: seq<nat>)
    requires Linked(slots, a + [x] + b) && NoDup(a + [x] + b)
    ensures Below(a, |slots|) && x < |slots|
    ensures slots[x].next == Head(b)
    ensures Linked(Skip(slots, a, slots[x].next), a + b)
  {
    var list, rest := a + [x] + b, a + b;
    assert LinkAt(slots, list, |a|);
    LinkedBelow(slots, list);
    forall k | 0 <= k < |a| ensures a[k] < |slots| { assert list[k] == a[k]; }
    assert slots[x].next == Head(b) by { assert b != [] ==> list[|a| + 1] == b[0]; }
    var after := Skip(slots, a, slots[x].next);
    forall j | 0 <= j < |rest| ensures LinkAt(after, rest, j) {
      var i := if j < |a| then j else j + 1;
      assert LinkAt(slots, list, i) && rest[j] == list[i];
      if a != [] && i != |a| - 1 { assert list[i] != list[|a| - 1]; }
    }
  }

  /** Appending a slot that is on neither list to the free list. */
  lemma {:induction false} LinkedAppend(slots: seq<Slot>, free: seq<nat>, busy: seq<nat>, x: nat, tail: Slot, end: Slot)
    requires Linked(slots, free) && Linked(slots, busy) && x < |slots|
    requires NoDup(free + busy) && x !in free && x !in busy
    requires Below(free, |slots|)
    requires end.next == NULL && (free != [] ==> tail == slots[free[|free| - 1]].(next := x))
    ensures var mid := if free == [] then slots else slots[free[|free| - 1] := tail];
            Linked(mid[x := end], free + [x]) && Linked(mid[x := end], busy)
  {
    var mid := if free == [] then slots else slots[free[|free| - 1] := tail];
    var after := mid[x := end];
    var list := free + [x];
    var all := free + busy;
    forall k | 0 <= k < |list| ensures LinkAt(after, list, k) {
      if k < |free| { assert LinkAt(slots, free, k); }
      if k + 1 < |free| { assert all[k] != all[|free| - 1]; }
    }
    forall k | 0 <= k < |busy| ensures LinkAt(after, busy, k) {
      assert LinkAt(slots, busy, k);
      if free != [] { assert all[|free| - 1] != all[|free| + k]; }
    }
  }

  // ----- slot identities

  const MAX_IDS := 65534

  /** What main stores in slot i and nothing changes: its session number and its peer's address. */
  ghost predicate Named(slots: seq<Slot>, offset: nat, remote: Ip) {
    forall i :: 0 <= i < |slots| ==>
      && slots[i].sess == i + 1 + offset
      && Value(slots[i].peerip) == Plus(Value(remote), i)
  }

  /** The slot initialisation loop of main. */
  method InitialSlots(n: nat, offset: nat, remote: Ip) returns (slots: seq<Slot>)
    ensures |slots| == n && Named(slots, offset, remote)
    ensures Unused(slots)
  {
    hide Value, Plus;
    slots := [];
    var ip := remote;
    PlusZero(Value(remote));
    for i := 0 to n
      invariant |slots| == i && Named(slots, offset, remote)
      invariant Value(ip) == Plus(Value(remote), i)
      invariant Unused(slots)
    {
      slots := slots + [Slot(NULL, 0, false, ip, i + 1 + offset, NO_MAC, false, false)];
      PlusOne(Value(remote), i);
      ip := IncrementIp(ip);
    }
  }

  ghost predicate Unused(slots: seq<Slot>) {
    forall i :: 0 <= i < |slots| ==> slots[i].pid == 0 && !slots[i].hasInterface && slots[i].eth == NO_MAC
  }

  /** The linking loop of main. */
  method LinkInOrder(slots: seq<Slot>, order: seq<nat>, offset: nat, remote: Ip) returns (s: seq<Slot>)
    requires |order| == |slots| > 0 && Below(order, |slots|) && NoDup(order)
    requires Named(slots, offset, remote) && Unused(slots)
    ensures |s| == |slots| && Named(s, offset, remote) && Unused(s) && Linked(s, order)
  {
    s := slots;
    var n := |slots|;
    for i := 0 to n - 1
      invariant |s| == n && Named(s, offset, remote) && Unused(s)
      invariant forall j {:trigger order[j]} :: 0 <= j < i ==> s[order[j]].next == order[j + 1]
    {
      s := s[order[i] := s[order[i]].(next := order[i + 1])];
    }
    s := s[order[n - 1] := s[order[n - 1]].(next := NULL)];
    assert forall k :: 0 <= k < |order| ==> LinkAt(s, order, k);
  }

  /** Session numbers are distinct, and never 0 or 0xFFFF; peer addresses are distinct. */
  lemma {:induction false} DistinctNames(slots: seq<Slot>, offset: nat, remote: Ip, i: nat, j: nat)
    requires Named(slots, offset, remote) && |slots| + offset <= MAX_IDS && i < |slots| && j < |slots|
    ensures 1 <= slots[i].sess <= 65534
    ensures slots[i].sess == slots[j].sess <==> i == j
    ensures slots[i].peerip == slots[j].peerip <==> i == j
  {
    hide Value;
    if i != j { PlusInjective(Value(remote), i, j); }
  }

  /** ntohs(session) - 1 - SessOffset in 32-bit size_t arithmetic. */
  function PadtIndex(id: nat, offset: nat): nat {
    (id - 1 - offset) % 0x1_0000_0000
  }

  /** The wrapping index picks slot i exactly when slot i owns the packet's session number. */
  lemma {:induction false} PadtIndexFindsOwner(slots: seq<Slot>, offset: nat, remote: Ip, id: nat, i: nat)
    requires Named(slots, offset, remote) && |slots| + offset <= MAX_IDS && id < 0x1_0000 && i < |slots|
    ensures PadtIndex(id, offset) == i <==> slots[i].sess == id
  {}

  // ----- what holds between events

  /** The fields of one slot: a live child exactly on busy slots, and the sent flag only when a PADT
      for this very session is in the log. */
  ghost predicate SlotGood(s: Slot, busy: bool, log: seq<Padt>, born: nat) {
    && (s.pid > 0 <==> busy)
    && (busy ==> s.hasInterface)
    && (!s.hasInterface ==> s.eth == NO_MAC)
    && (busy && s.sentPadt ==> SentTo(log, born, Padt(s.sess, s.eth)))
  }

  ghost predicate AllGood(slots: seq<Slot>, busy: seq<nat>, log: seq<Padt>, born: seq<nat>)
    requires |born| == |slots|
  {
    forall i :: 0 <= i < |slots| ==> SlotGood(slots[i], i in busy, log, born[i])
  }

  /** No peer owns more than max busy sessions; zero means no limit. */
  ghost predicate Limited(slots: seq<Slot>, busy: seq<nat>, max: nat)
    requires Below(busy, |slots|)
  {
    max > 0 ==> forall mac: Mac :: |Holding(slots, busy, mac)| <= max
  }

  lemma {:induction false} LimitedAfterPush(slots: seq<Slot>, busy: seq<nat>, max: nat, r: nat, s: Slot)
    requires Below(busy, |slots|) && r < |slots| && r !in busy
    requires Limited(slots, busy, max) && (max > 0 ==> |Holding(slots, busy, s.eth)| < max)
    ensures Below([r] + busy, |slots|) && Limited(slots[r := s], [r] + busy, max)
    ensures Limited(slots[r := s], busy, max)
  {
    var after := slots[r := s];
    LimitedSameEth(slots, after, busy, max);
    assert Below([r] + busy, |slots|);
    forall mac: Mac ensures max > 0 ==> |Holding(after, [r] + busy, mac)| <= max {
      HoldingElsewhere(slots, after, busy, mac);
      var more := if s.eth == mac then {r} else {};
      assert Holding(after, [r] + busy, mac) == Holding(after, busy, mac) + more;
    }
  }

  lemma {:induction false} LimitedSameEth(slots: seq<Slot>, after: seq<Slot>, busy: seq<nat>, max: nat)
    requires Below(busy, |slots|) && |after| == |slots| && Limited(slots, busy, max)
    requires forall k :: 0 <= k < |busy| ==> after[busy[k]].eth == slots[busy[k]].eth
    ensures Limited(after, busy, max)
  {
    forall mac: Mac ensures Holding(after, busy, mac) == Holding(slots, busy, mac) {
      HoldingElsewhere(slots, after, busy, mac);
    }
  }

  lemma {:induction false} LimitedWithout(slots: seq<Slot>, busy: seq<nat>, max: nat, x: nat)
    requires Below(busy, |slots|) && x in busy && Limited(slots, busy, max)
    ensures Below(Without(busy, x), |slots|) && Limited(slots, Without(busy, x), max)
  {
    hide IndexOf, Without;
    SplitAt(busy, x);
    var rest := Without(busy, x);
    assert forall k :: 0 <= k < |rest| ==> rest[k] in busy;
    forall mac: Mac ensures |Holding(slots, rest, mac)| <= |Holding(slots, busy, mac)| {
      FewerInPart(Holding(slots, rest, mac), Holding(slots, busy, mac));
    }
  }

  lemma {:induction false} FewerInPart(a: set<nat>, b: set<nat>)
    requires a <= b
    ensures |a| <= |b|
  {
    assert b == a + (b - a);
  }

  lemma {:induction false} HoldingElsewhere(slots: seq<Slot>, after: seq<Slot>, list: seq<nat>, mac: Mac)
    requires Below(list, |slots|) && Below(list, |after|)
    requires forall k :: 0 <= k < |list| ==> after[list[k]].eth == slots[list[k]].eth
    ensures Holding(after, list, mac) == Holding(slots, list, mac)
  {
  }

  lemma {:induction false} HoldingNone(slots: seq<Slot>, mac: Mac)
    ensures |Holding(slots, [], mac)| == 0
  {
  }

  /** One more slot on a list without repetitions. */
  lemma {:induction false} HoldingNext(slots: seq<Slot>, list: seq<nat>, k: nat, mac: Mac)
    requires Below(list, |slots|) && NoDup(list) && k < |list|
    ensures Below(list[..k], |slots|) && Below(list[..k + 1], |slots|)
    ensures |Holding(slots, list[..k + 1], mac)|
         == |Holding(slots, list[..k], mac)| + if slots[list[k]].eth == mac then 1 else 0
  {
    hide Holding;
    assert list[..k + 1] == list[..k] + [list[k]];
    HoldingMore(slots, list[..k], list[k], mac);
  }

  lemma {:induction false} HoldingMore(slots: seq<Slot>, list: seq<nat>, x: nat, mac: Mac)
    requires Below(list, |slots|) && Below(list + [x], |slots|) && x !in list && x < |slots|
    ensures |Holding(slots, list + [x], mac)| == |Holding(slots, list, mac)| + if slots[x].eth == mac then 1 else 0
  {
    hide Below;
    assert Holding(slots, list + [x], mac) == Holding(slots, list, mac) + if slots[x].eth == mac then {x} else {};
  }

  class Pool {
    const n: nat
    const offset: nat
    const remote: Ip
    const maxPerMac: nat
    const slots: array<Slot>
    var freeHead: int
    var lastFree: int
    var busyHead: int
    var numActive: nat
    /** Every PADT sent, oldest first. */
    var log: seq<Padt>

    ghost var free: seq<nat>
    ghost var busy: seq<nat>
    /** For each slot, the length of the log when its current session began. */
    ghost var born: seq<nat>

    ghost function View(): Lists
      reads this
    {
      Lists(free, busy)
    }

    ghost function Ledger(): Book
      reads this
    {
      Book(View(), log, born)
    }

    /** The lists are acyclic, disjoint, and hold every slot once; the heads, the tail pointer and
        the counter agree with them; slots keep their names. */
    ghost predicate Valid()
      reads this, slots
    {
      && slots.Length == n && |born| == n && n + offset <= MAX_IDS
      && (forall i :: 0 <= i < n ==> born[i] <= |log|)
      && Partition(View(), n)
      && Below(free, n) && Below(busy, n)
      && Linked(slots[..], free) && Linked(slots[..], busy)
      && freeHead == Head(free) && lastFree == Last(free) && busyHead == Head(busy)
      && numActive == |busy|
      && Named(slots[..], offset, remote)
    }

    /** The state between two events. */
    ghost predicate Quiet()
      reads this, slots
    {
      && Valid()
      && Limited(slots[..], busy, maxPerMac)
      && AllGood(slots[..], busy, log, born)
    }

    /** The start of main: `order` is the sequential or the shuffled one. */
    constructor (n: nat, offset: nat, remote: Ip, maxPerMac: nat, order: seq<nat>)
      requires n > 0 && n + offset <= MAX_IDS && Partition(Lists(order, []), n)
      ensures Quiet() && fresh(slots) && free == order && busy == [] && log == [] && Unused(slots[..])
      ensures this.n == n && this.offset == offset && this.remote == remote && this.maxPerMac == maxPerMac
    {
      var s := InitialSlots(n, offset, remote);
      assert order + [] == order;
      assert Below(order, n) by {
        forall k | 0 <= k < |order| ensures order[k] < n { assert order[k] in order + []; }
      }
      s := LinkInOrder(s, order, offset, remote);
      this.n, this.offset, this.remote, this.maxPerMac := n, offset, remote, maxPerMac;
      slots := new Slot[n](i requires 0 <= i < |s| => s[i]);
      freeHead, lastFree, busyHead, numActive := order[0], order[n - 1], NULL, 0;
      log, free, busy, born := [], order, [], seq(n, i => 0);
      new;
      assert slots[..] == s;
    }

    /** pppoe_alloc_session: the head of the free list, fields reset, becomes the head of the busy
        list. */
    method Allocate() returns (r: int)
      requires Valid()
      modifies this, slots
      ensures Valid() && View() == Take(old(View())) && log == old(log)
      ensures old(free) == [] ==> r == NULL && slots[..] == old(slots[..]) && born == old(born)
      ensures old(free) != [] ==>
                && r == old(free)[0] && r !in old(busy)
                && slots[..] == old(slots[..])[r := slots[r]]
                && slots[r] == Slot(Head(old(busy)), 0, false, old(slots[r].peerip), old(slots[r].sess), NO_MAC,
                                    false, false)
                && born == old(born)[r := |log|]
    {
      hide Named, Partition;
      r := freeHead;
      if r == NULL { return; }
      ghost var l, before := View(), slots[..];
      TakeKeepsPartition(l, n);
      FreshFromFree(l, n);
      var ses := Slot(busyHead, 0, false, slots[r].peerip, slots[r].sess, NO_MAC, false, false);
      LinkedTail(before, free);
      LinkedTake(before, l, ses);
      NamedUpdate(before, offset, remote, r, ses);
      if r == lastFree { lastFree := NULL; }
      freeHead := slots[r].next;
      slots[r] := ses;
      busyHead := r;
      numActive := numActive + 1;
      free, busy := free[1..], [free[0]] + busy;
      born := born[r := |log|];
      assert slots[..] == before[r := ses];
    }

    /** The search loop of pppoe_free_session. */
    method FindBusy(ses: nat) returns (cur: int, prev: int, ghost k: nat)
      requires Valid()
      ensures k <= |busy| && ses !in busy[..k]
      ensures cur == (if k < |busy| then busy[k] else NULL)
      ensures prev == (if k > 0 then busy[k - 1] else NULL)
      ensures cur == NULL || cur == ses
    {
      cur, prev, k := busyHead, NULL, 0;
      while cur != NULL
        invariant k <= |busy| && ses !in busy[..k]
        invariant cur == if k < |busy| then busy[k] else NULL
        invariant prev == if k > 0 then busy[k - 1] else NULL
        decreases |busy| - k
      {
        if ses == cur { break; }
        assert LinkAt(slots[..], busy, k);
        assert busy[..k + 1] == busy[..k] + [busy[k]];
        prev := cur;
        cur := slots[cur].next;
        k := k + 1;
      }
    }

    /** The lists part of pppoe_free_session, once the slot and its predecessor are known. */
    method Move(ses: nat, prev: int, ghost k: nat)
      requires Valid() && k < |busy| && busy[k] == ses && ses !in busy[..k]
      requires prev == if k > 0 then busy[k - 1] else NULL
      modifies this, slots
      ensures Valid() && View() == Give(old(View()), ses)
      ensures log == old(log) && born == old(born)
      ensures forall i :: 0 <= i < n && i != ses ==> SameBut(slots[i], old(slots[i]))
      ensures slots[ses] == old(slots[ses]).(next := NULL, pid := 0, recvdPadt := false, sentPadt := false)
    {
      hide Named, Partition, Linked, Moved, IndexOf, Without, SameBut, NoDup, AllGood, Limited, Give;
      ghost var l, before := View(), slots[..];
      ghost var a, b := busy[..k], busy[k + 1..];
      assert busy == a + [ses] + b;
      PartitionBelow(l, n);
      GiveAt(l, ses, k);
      GiveKeepsPartition(l, ses, n);
      PartitionBelow(Give(l, ses), n);
      var end := slots[ses].(next := NULL, pid := 0, recvdPadt := false, sentPadt := false);
      MovedLinks(before, free, a, ses, b, end);
      MovedFields(before, free, a, ses, end, offset, remote);
      Relink(ses, prev, a, end);
      numActive := numActive - 1;
      free, busy := free + [ses], a + b;
    }

    /** Its pointer assignments. */
    method Relink(ses: nat, prev: int, ghost a: seq<nat>, end: Slot)
      requires slots.Length == n && ses < n && Below(a, n) && Below(free, n)
      requires prev == Last(a) && lastFree == Last(free)
      modifies slots, this`busyHead, this`freeHead, this`lastFree
      ensures slots[..] == Moved(old(slots[..]), free, a, ses, end)
      ensures lastFree == ses
      ensures busyHead == if a == [] then old(slots[ses].next) else old(busyHead)
      ensures freeHead == if free == [] then ses else old(freeHead)
    {
      ghost var before := slots[..];
      if prev != NULL {
        slots[prev] := slots[prev].(next := slots[ses].next);
      } else {
        busyHead := slots[ses].next;
      }
      ghost var mid := Skip(before, a, before[ses].next);
      assert slots[..] == mid;
      if lastFree != NULL {
        slots[lastFree] := slots[lastFree].(next := ses);
      } else {
        freeHead := ses;
      }
      ghost var linked := if free == [] then mid else mid[lastFree := mid[lastFree].(next := ses)];
      assert slots[..] == linked;
      slots[ses] := end;
      lastFree := ses;
    }

    /** pppoe_free_session */
    method Release(ses: nat) returns (rc: int)
      requires Valid() && ses < n
      modifies this, slots
      ensures Valid() && View() == Give(old(View()), ses)
      ensures rc == if ses in old(busy) then 0 else -1
      ensures log == old(log) && born == old(born)
      ensures ses !in old(busy) ==> slots[..] == old(slots[..])
      ensures ses in old(busy) ==>
                && (forall i :: 0 <= i < n && i != ses ==> SameBut(slots[i], old(slots[i])))
                && slots[ses] == old(slots[ses]).(next := NULL, pid := 0, recvdPadt := false, sentPadt := false)
    {
      var cur, prev;
      ghost var k;
      cur, prev, k := FindBusy(ses);
      if cur == NULL {
        assert busy[..k] == busy;
        return -1;
      }
      Move(ses, prev, k);
      rc := 0;
    }

    /** count_sessions_from_mac */
    method CountSessions(mac: Mac) returns (count: nat)
      requires Valid()
      ensures count == |Holding(slots[..], busy, mac)|
    {
      hide Named, Partition, Holding;
      count := 0;
      PartitionBelow(View(), n);
      NoDupRight(free, busy);
      HoldingNone(slots[..], mac);
      assert busy[..0] == [] && busy[..|busy|] == busy;
      var s := busyHead;
      ghost var k := 0;
      while s != NULL
        invariant k <= |busy| && s == if k < |busy| then busy[k] else NULL
        invariant count == |Holding(slots[..], busy[..k], mac)|
        decreases |busy| - k
      {
        assert LinkAt(slots[..], busy, k);
        HoldingNext(slots[..], busy, k, mac);
        if slots[s].eth == mac { count := count + 1; }
        s := slots[s].next;
        k := k + 1;
      }
    }

    /** sendPADT for a slot. */
    method SendPadt(i: nat)
      requires Quiet() && i < n && slots[i].hasInterface
      modifies this`log, slots
      ensures Quiet() && log == old(log) + [Padt(slots[i].sess, slots[i].eth)]
      ensures slots[..] == old(slots[..])[i := old(slots[i]).(sentPadt := true)]
    {
      hide Named, Partition, Linked, Holding;
      ghost var before := slots[..];
      var s := slots[i].(sentPadt := true);
      SendKeepsGood(before, busy, log, born, i);
      SameLinks(before, free, i, s);
      SameLinks(before, busy, i, s);
      NamedUpdate(before, offset, remote, i, s);
      LimitedSameEth(before, before[i := s], busy, maxPerMac);
      log := log + [Padt(slots[i].sess, slots[i].eth)];
      slots[i] := s;
      assert slots[..] == before[i := s];
    }

    /** The session part of processPADR for a request from `mac`.  `acceptable` says whether its cookie
        and service name passed, and `child` is what fork returned to the parent. */
    method Request(mac: Mac, acceptable: bool, child: int) returns (r: Admission)
      requires Quiet() && child != 0
      modifies this, slots
      ensures Quiet() && log == old(log)
      ensures r.Started? <==>
                && (maxPerMac > 0 ==> old(|Holding(slots[..], busy, mac)|) < maxPerMac)
                && acceptable && old(free) != [] && child > 0
      ensures r.Started? ==>
                && r.slot == old(free)[0] && r.slot < n
                && View() == Take(old(View()))
                && slots[r.slot].eth == mac && slots[r.slot].pid == child
                && slots[r.slot].sess == old(slots[r.slot].sess)
      ensures r.NoSlot? <==>
                && (maxPerMac > 0 ==> old(|Holding(slots[..], busy, mac)|) < maxPerMac)
                && acceptable && old(free) == []
      ensures r.NoChild? <==>
                && (maxPerMac > 0 ==> old(|Holding(slots[..], busy, mac)|) < maxPerMac)
                && acceptable && old(free) != [] && child < 0
      ensures r.NoChild? ==> View() == Lists(old(free)[1..] + [old(free)[0]], old(busy))
      ensures r.Refused? || r.NoSlot? ==> View() == old(View()) && slots[..] == old(slots[..])
      ensures Goes(old(Ledger()), Ledger())
    {
      hide Named, Partition, Linked, Holding, SentTo, Goes, AllGood, Take, Limited;
      ghost var ledger := Ledger();
      JustLogged(ledger, ledger);
      if maxPerMac != 0 {
        var count := CountSessions(mac);
        if count >= maxPerMac { return Refused; }
      }
      if !acceptable { return Refused; }
      ghost var before, wasBusy := slots[..], busy;
      TakeOne(ledger.lists);
      var i := Allocate();
      if i == NULL { return NoSlot; }
      var s := slots[i].(eth := mac, hasInterface := true, recvdPadt := false, sentPadt := false);
      LimitedAfterPush(before, wasBusy, maxPerMac, i, s);
      if child < 0 {
        SetFields(i, s);
        assert slots[..] == before[i := s];
        GiveUp(i, before, wasBusy, old(born));
        JustRotated(ledger, Ledger());
        return NoChild;
      }
      s := s.(pid := child);
      LimitedAfterPush(before, wasBusy, maxPerMac, i, s);
      SetFields(i, s);
      assert slots[..] == before[i := s];
      StartKeepsGood(before, wasBusy, log, old(born), i, s);
      JustStarted(ledger, Ledger());
      return Started(i);
    }

    /** The fork failure path: the slot just taken goes back, behind the others. */
    method GiveUp(i: nat, ghost before: seq<Slot>, ghost wasBusy: seq<nat>, ghost wasBorn: seq<nat>)
      requires Valid() && i < n && i !in wasBusy && busy == [i] + wasBusy && Below(wasBusy, n)
      requires |before| == n && slots[..] == before[i := slots[i]] && slots[i].hasInterface
      requires |wasBorn| == n && born == wasBorn[i := |log|]
      requires AllGood(before, wasBusy, log, wasBorn) && Limited(slots[..], wasBusy, maxPerMac)
      modifies this, slots
      ensures Quiet() && log == old(log) && born == old(born) && View() == Lists(old(free) + [i], wasBusy)
    {
      hide Named, Partition, Linked, Holding, SentTo;
      ghost var mid := slots[..];
      WithoutHead(i, wasBusy);
      var rc := Release(i);
      RefillKeepsGood(before, mid, slots[..], wasBusy, log, wasBorn, born, i);
      LimitedSameEth(mid, slots[..], busy, maxPerMac);
    }

    /** Assignments to fields other than the link, the number and the address. */
    method SetFields(i: nat, s: Slot)
      requires Valid() && i < n
      requires s.next == slots[i].next && s.sess == slots[i].sess && s.peerip == slots[i].peerip
      modifies slots
      ensures Valid() && slots[..] == old(slots[..])[i := s]
    {
      hide Named, Partition, Linked;
      ghost var before := slots[..];
      SameLinks(before, free, i, s);
      SameLinks(before, busy, i, s);
      NamedUpdate(before, offset, remote, i, s);
      slots[i] := s;
      assert slots[..] == before[i := s];
    }

    /** processPADT: the session number and the peer's address must both be the slot's own. */
    method Terminate(forUs: bool, id: nat, src: Mac) returns (r: Termination)
      requires Quiet() && id < 0x1_0000
      modifies this`log, slots
      ensures Quiet() && Logged(old(Ledger()), Ledger())
      ensures r.Stopped? ==>
                && r.slot < n && slots[r.slot].sess == id && slots[r.slot].eth == src && forUs
                && slots[r.slot].recvdPadt && slots[r.slot].sentPadt
                && log == old(log) + [Padt(id, src)]
                && slots[..] == old(slots[..])[r.slot := slots[r.slot]]
      ensures !r.Stopped? ==> log == old(log)
      ensures r.Ignored? ==> slots[..] == old(slots[..])
      ensures r.Ignored? <==> !(forUs && exists i :: 0 <= i < n && old(slots[i]).sess == id && old(slots[i]).eth == src)
      ensures r.NoInterface? <==>
                forUs && exists i :: 0 <= i < n && old(slots[i]).sess == id && old(slots[i]).eth == src
                                     && !old(slots[i]).hasInterface
      ensures r.NoInterface? ==> src == NO_MAC && r.slot < n && r.slot !in busy && slots[r.slot].sess == id
    {
      hide Named, Partition, Linked, Holding, SentTo;
      if !forUs { return Ignored; }
      var i := PadtIndex(id, offset);
      forall j | 0 <= j < n ensures PadtIndex(id, offset) == j <==> slots[j].sess == id {
        PadtIndexFindsOwner(slots[..], offset, remote, id, j);
      }
      if i >= n { return Ignored; }
      if slots[i].sess != id { return Ignored; }
      if slots[i].eth != src { return Ignored; }
      ghost var before := slots[..];
      var s := slots[i].(recvdPadt := true);
      assert SlotGood(before[i], i in busy, log, born[i]);
      LimitedSameEth(before, before[i := s], busy, maxPerMac);
      MarkKeepsGood(before, busy, log, born, i, s);
      SetFields(i, s);
      if !slots[i].hasInterface { return NoInterface(i); }
      SendPadt(i);
      assert slots[..] == before[i := slots[i]];
      return Stopped(i);
    }

    /** childHandler: when it puts the slot back, a PADT for that session has been sent. */
    method ChildExit(i: nat)
      requires Quiet() && i < n && i in busy
      modifies this, slots
      ensures Quiet() && View() == Give(old(View()), i)
      ensures old(log) <= log <= old(log) + [Padt(slots[i].sess, slots[i].eth)]
      ensures SentTo(log, old(born[i]), Padt(old(slots[i].sess), old(slots[i].eth)))
      ensures Closed(old(Ledger()), Ledger(), i, Padt(old(slots[i].sess), old(slots[i].eth)))
      ensures slots[i].sess == old(slots[i].sess) && slots[i].eth == old(slots[i].eth)
    {
      hide Named, Partition, Linked, Holding, SentTo;
      GoodAt(slots[..], busy, log, born, i);
      if !slots[i].sentPadt {
        SendPadt(i);
        GoodAt(slots[..], busy, log, born, i);
      }
      ghost var before, wasBusy := slots[..], busy;
      PartitionBelow(View(), n);
      NoDupRight(free, busy);
      LimitedWithout(before, busy, maxPerMac, i);
      var rc := Release(i);
      ReleaseKeepsGood(before, slots[..], wasBusy, log, born, i);
      LimitedSameEth(before, slots[..], busy, maxPerMac);
    }

    /** killAllSessions: every busy session is sent a PADT. */
    method StopAll()
      requires Quiet()
      modifies this`log, slots
      ensures Quiet() && old(log) <= log && |log| == |old(log)| + |busy|
      ensures forall k :: 0 <= k < |busy| ==> slots[busy[k]].sentPadt
    {
      hide Named, Partition, Holding, SentTo;
      var s := busyHead;
      ghost var k := 0;
      while s != NULL
        invariant Quiet() && k <= |busy| && s == if k < |busy| then busy[k] else NULL
        invariant old(log) <= log && |log| == |old(log)| + k
        invariant forall j :: 0 <= j < k ==> slots[busy[j]].sentPadt
        decreases |busy| - k
      {
        assert busy[k] in busy;
        GoodAt(slots[..], busy, log, born, s);
        SendPadt(s);
        assert LinkAt(slots[..], busy, k);
        s := slots[s].next;
        k := k + 1;
      }
    }

    /** Any sequence of events: the invariant holds after it, the lists have gone through one operation
        per event, and every session closed on the way has had a PADT of its own. */
    method Serve(events: seq<Event>) returns (closed: seq<Padt>, ghost ops: seq<Op>)
      requires Quiet()
      modifies this, slots
      ensures Quiet() && old(log) <= log && Books(closed, Ledger(), offset, old(View()), ops)
      ensures |ops| == |events| && forall k :: 0 <= k < |events| ==> OpOf(events[k], ops[k])
    {
      hide Valid, Limited, AllGood, Partition, Books, Goes, OpOf;
      closed, ops := [], [];
      LedgerKept();
      BooksOpen(Ledger(), offset);
      for e := 0 to |events|
        invariant Quiet() && old(log) <= log && Books(closed, Ledger(), offset, old(View()), ops)
        invariant |ops| == e && forall k :: 0 <= k < e ==> OpOf(events[k], ops[k])
      {
        ghost var op;
        closed, op := Handle(events[e], closed, old(View()), ops);
        ops := ops + [op];
      }
    }

    /** One event. */
    method Handle(event: Event, closed0: seq<Padt>, ghost start: Lists, ghost ops: seq<Op>)
      returns (closed: seq<Padt>, ghost op: Op)
      requires Quiet() && Books(closed0, Ledger(), offset, start, ops)
      modifies this, slots
      ensures Quiet() && old(log) <= log && OpOf(event, op)
      ensures Books(closed, Ledger(), offset, start, ops + [op])
    {
      hide Valid, Limited, AllGood, Partition, Books, Goes, Named, Take, Give;
      closed := closed0;
      LedgerKept();
      ghost var before := Ledger();
      JustLogged(before, before);
      match event {
        case Padr(mac, acceptable, child) =>
          if child != 0 {
            var r := Request(mac, acceptable, child);
            RequestOp(before, r);
          }
        case PadtReceived(forUs, id, src) =>
          if id < 0x1_0000 {
            var r := Terminate(forUs, id, src);
            JustLogged(before, Ledger());
          }
        case Exit(i) =>
          LengthOf();
          BusyByPid(i);
          op := Op.Release(i);
          if i < n && slots[i].pid > 0 {
            var p := Padt(slots[i].sess, slots[i].eth);
            NumberOf(i);
            ChildExit(i);
            BooksClose(closed, before, Ledger(), i, p, offset, start, ops);
            closed := closed + [p];
          } else {
            BooksStay(closed, before, i, offset, start, ops);
          }
          return;
      }
      GoesOp(before, Ledger());
      GoesGrows(before, Ledger());
      op := OpFor(before, Ledger());
      BooksGo(closed, before, Ledger(), offset, start, ops);
    }

    lemma Seen()
      requires Quiet()
      ensures InOrderAfter(slots[..], numActive, View(), offset, remote, maxPerMac) && slots.Length == n
    {
      hide Partition, Linked, Named, Limited, Below;
      forall i | 0 <= i < n ensures slots[..][i].pid > 0 <==> i in busy {
        assert SlotGood(slots[..][i], i in busy, log, born[i]);
      }
    }

    /** The list operation behind what Request did. */
    lemma RequestOp(before: Book, r: Admission)
      requires r.Started? ==> before.lists.free != [] && View() == Take(before.lists)
      requires r.NoChild? ==>
                 before.lists.free != []
                 && View() == Lists(before.lists.free[1..] + [before.lists.free[0]], before.lists.busy)
      requires r.Refused? || r.NoSlot? ==> View() == before.lists
      ensures var op := OpFor(before, Ledger());
              op.Stay? || (r.Started? && op.Allocate?) || (r.NoChild? && op.Rotate?)
    {
      if r.NoChild? { assert |Take(before.lists).busy| == |View().busy| + 1; }
    }

    lemma LedgerKept()
      requires Valid()
      ensures Kept(Ledger())
    {
    }

    lemma NumberOf(i: nat)
      requires Valid() && i < n
      ensures slots.Length == n && slots[i].sess == i + 1 + offset
    {
      assert slots[..][i] == slots[i];
    }

    lemma LengthOf()
      requires Valid()
      ensures slots.Length == n
    {}

    lemma BusyByPid(i: nat)
      requires Quiet() && slots.Length == n
      ensures i in busy <==> i < n && slots[i].pid > 0
    {
      hide Linked, Named, Limited;
      PartitionBelow(View(), n);
      if i < n { assert SlotGood(slots[..][i], i in busy, log, born[i]); }
    }
  }

  lemma {:induction false} GoodAt(slots: seq<Slot>, busy: seq<nat>, log: seq<Padt>, born: seq<nat>, i: nat)
    requires |born| == |slots| && AllGood(slots, busy, log, born) && i < |slots| && i in busy
    ensures slots[i].hasInterface && slots[i].pid > 0
    ensures slots[i].sentPadt ==> SentTo(log, born[i], Padt(slots[i].sess, slots[i].eth))
  {
    assert SlotGood(slots[i], i in busy, log, born[i]);
  }

  lemma {:induction false} SameLinks(slots: seq<Slot>, list: seq<nat>, i: nat, s: Slot)
    requires Linked(slots, list) && i < |slots| && s.next == slots[i].next
    ensures Linked(slots[i := s], list)
  {
    var after := slots[i := s];
    forall k | 0 <= k < |list| ensures LinkAt(after, list, k) { assert LinkAt(slots, list, k); }
  }

  lemma {:induction false} SendKeepsGood(slots: seq<Slot>, busy: seq<nat>, log: seq<Padt>, born: seq<nat>, i: nat)
    requires |born| == |slots| && AllGood(slots, busy, log, born) && i < |slots| && born[i] <= |log|
    ensures AllGood(slots[i := slots[i].(sentPadt := true)], busy, log + [Padt(slots[i].sess, slots[i].eth)], born)
  {
    hide SentTo;
    var p := Padt(slots[i].sess, slots[i].eth);
    forall j | 0 <= j < |slots|
      ensures SlotGood(slots[i := slots[i].(sentPadt := true)][j], j in busy, log + [p], born[j])
    {
      SentToMore(log, born[j], Padt(slots[j].sess, slots[j].eth), p);
      assert SlotGood(slots[j], j in busy, log, born[j]);
    }
  }

  lemma {:induction false} ReleaseKeepsGood(slots: seq<Slot>, after: seq<Slot>, busy: seq<nat>, log: seq<Padt>,
                                            born: seq<nat>, x: nat)
    requires |born| == |slots| == |after| && AllGood(slots, busy, log, born) && x < |slots| && x in busy && NoDup(busy)
    requires forall i :: 0 <= i < |slots| && i != x ==> SameBut(after[i], slots[i])
    requires after[x] == slots[x].(next := NULL, pid := 0, recvdPadt := false, sentPadt := false)
    ensures AllGood(after, Without(busy, x), log, born)
  {
    hide SentTo, IndexOf, Without;
    WithoutMembers(busy, x);
    forall i | 0 <= i < |slots| ensures SlotGood(after[i], i in Without(busy, x), log, born[i]) {
      assert SlotGood(slots[i], i in busy, log, born[i]);
    }
  }

  /** What reaches the server: a PADR (with what fork returned), a PADT, or a child's exit. */
  datatype Event =
    | Padr(mac: Mac, acceptable: bool, child: int)
    | PadtReceived(forUs: bool, id: nat, src: Mac)
    | Exit(slot: nat)

  /** What an event can do to the lists: an exit releases its slot, and only an acceptable PADR takes one. */
  ghost predicate OpOf(event: Event, op: Op) {
    match event
    case Padr(_, acceptable, child) =>
      op == Stay || (acceptable && ((op == Allocate && child > 0) || (op == Rotate && child < 0)))
    case PadtReceived(_, _, _) => op == Stay
    case Exit(i) => op == Release(i)
  }

  datatype Admission = Refused | NoSlot | NoChild | Started(slot: nat)

  /** NoInterface: the slot has never carried a session, so there is nowhere to send from. */
  datatype Termination = Ignored | Stopped(slot: nat) | NoInterface(slot: nat)

  lemma {:induction false} MarkKeepsGood(slots: seq<Slot>, busy: seq<nat>, log: seq<Padt>, born: seq<nat>,
                                         i: nat, s: Slot)
    requires |born| == |slots| && AllGood(slots, busy, log, born) && i < |slots|
    requires s == slots[i].(recvdPadt := true)
    ensures AllGood(slots[i := s], busy, log, born)
  {
    hide SentTo;
    var after := slots[i := s];
    forall j | 0 <= j < |slots| ensures SlotGood(after[j], j in busy, log, born[j]) {
      assert SlotGood(slots[j], j in busy, log, born[j]);
    }
  }

  lemma {:induction false} StartKeepsGood(slots: seq<Slot>, busy: seq<nat>, log: seq<Padt>, born: seq<nat>,
                                          i: nat, s: Slot)
    requires |born| == |slots| && AllGood(slots, busy, log, born) && i < |slots| && i !in busy
    requires s.pid > 0 && s.hasInterface && !s.sentPadt
    ensures AllGood(slots[i := s], [i] + busy, log, born[i := |log|])
  {
    hide SentTo;
    var after, born' := slots[i := s], born[i := |log|];
    forall j | 0 <= j < |slots| ensures SlotGood(after[j], j in [i] + busy, log, born'[j]) {
      assert SlotGood(slots[j], j in busy, log, born[j]);
    }
  }

  lemma {:induction false} RefillKeepsGood(slots: seq<Slot>, mid: seq<Slot>, after: seq<Slot>, busy: seq<nat>,
                                           log: seq<Padt>, born: seq<nat>, born': seq<nat>, x: nat)
    requires |born| == |born'| == |slots| == |mid| == |after| && x < |slots| && x !in busy
    requires AllGood(slots, busy, log, born)
    requires forall i :: 0 <= i < |slots| && i != x ==>
               mid[i] == slots[i] && SameBut(after[i], mid[i]) && born'[i] == born[i]
    requires after[x].pid == 0 && after[x].hasInterface
    ensures AllGood(after, busy, log, born')
  {
    hide SentTo;
    forall i | 0 <= i < |slots| ensures SlotGood(after[i], i in busy, log, born'[i]) {
      assert SlotGood(slots[i], i in busy, log, born[i]);
    }
  }

  /** Equal apart from the link. */
  ghost predicate SameBut(s: Slot, t: Slot) {
    s.(next := NULL) == t.(next := NULL)
  }

  lemma {:induction false} IndexOfUnique(s: seq<nat>, x: nat, k: nat)
    requires k < |s| && s[k] == x && x !in s[..k]
    ensures IndexOf(s, x) == k && Without(s, x) == s[..k] + s[k + 1..]
  {
    var i := IndexOf(s, x);
    assert forall j :: 0 <= j < k ==> s[..k][j] == s[j];
    assert forall j :: 0 <= j < i ==> s[..i][j] == s[j];
  }

  lemma {:induction false} GiveAt(l: Lists, x: nat, k: nat)
    requires k < |l.busy| && l.busy[k] == x && x !in l.busy[..k]
    ensures Give(l, x) == Lists(l.free + [x], l.busy[..k] + l.busy[k + 1..])
  {
    hide IndexOf, Without;
    IndexOfUnique(l.busy, x, k);
  }

  lemma {:induction false} NoDupDrop(f: seq<nat>, a: seq<nat>, x: nat, b: seq<nat>)
    requires NoDup(f + (a + [x] + b))
    ensures NoDup(f + (a + b)) && x !in a + b
  {
    var all, c, m := f + (a + [x] + b), f + (a + b), |f| + |a|;
    assert all[m] == x;
    assert forall p :: 0 <= p < |c| ==> c[p] == all[if p < m then p else p + 1];
    forall k | 0 <= k < |a + b| ensures (a + b)[k] != x {
      assert (a + b)[k] == c[|f| + k];
      assert all[if |f| + k < m then |f| + k else |f| + k + 1] != all[m];
    }
  }

  /** The slot array after x has been moved from between a and b to the end of the free list. */
  ghost function Moved(slots: seq<Slot>, free: seq<nat>, a: seq<nat>, x: nat, end: Slot): (after: seq<Slot>)
    requires Below(free, |slots|) && Below(a, |slots|) && x < |slots|
    ensures |after| == |slots|
  {
    var mid := Skip(slots, a, slots[x].next);
    var linked := if free == [] then mid else mid[free[|free| - 1] := mid[free[|free| - 1]].(next := x)];
    linked[x := end]
  }

  lemma {:induction false} MovedLinks(slots: seq<Slot>, free: seq<nat>, a: seq<nat>, x: nat, b: seq<nat>, end: Slot)
    requires Linked(slots, free) && Linked(slots, a + [x] + b) && NoDup(free + (a + [x] + b))
    requires Below(free, |slots|) && Below(a, |slots|) && x < |slots| && end.next == NULL
    ensures Linked(Moved(slots, free, a, x, end), free + [x])
    ensures Linked(Moved(slots, free, a, x, end), a + b)
    ensures Head(a + b) == if a == [] then slots[x].next else a[0]
  {
    hide Linked;
    NoDupRight(free, a + [x] + b);
    NoDupDrop(free, a, x, b);
    assert x in a + [x] + b;
    LinkedSkip(slots, a, x, b);
    var mid := Skip(slots, a, slots[x].next);
    if a != [] {
      var prev := a[|a| - 1];
      assert prev in a + [x] + b;
      LinkedElsewhere(slots, free, prev, mid[prev]);
    }
    var last := if free == [] then end else mid[free[|free| - 1]].(next := x);
    LinkedAppend(mid, free, a + b, x, last, end);
  }

  /** Changing only a next pointer changes no field that matters. */
  lemma {:induction false} OnlyNext(slots: seq<Slot>, i: nat, next: int, j: nat)
    requires i < |slots| && j < |slots|
    ensures SameBut(slots[i := slots[i].(next := next)][j], slots[j])
  {
  }

  lemma {:induction false} MovedAt(slots: seq<Slot>, free: seq<nat>, a: seq<nat>, x: nat, end: Slot, j: nat)
    requires Below(free, |slots|) && Below(a, |slots|) && x < |slots| && j < |slots| && j != x
    ensures SameBut(Moved(slots, free, a, x, end)[j], slots[j])
  {
    var mid := Skip(slots, a, slots[x].next);
    if a != [] { OnlyNext(slots, a[|a| - 1], slots[x].next, j); }
    if free != [] { OnlyNext(mid, free[|free| - 1], x, j); }
  }

  lemma {:induction false} MovedFields(slots: seq<Slot>, free: seq<nat>, a: seq<nat>, x: nat, end: Slot,
                                       offset: nat, remote: Ip)
    requires Below(free, |slots|) && Below(a, |slots|) && x < |slots|
    requires Named(slots, offset, remote) && end.sess == slots[x].sess && end.peerip == slots[x].peerip
    ensures var after := Moved(slots, free, a, x, end);
            && Named(after, offset, remote) && after[x] == end
            && forall i :: 0 <= i < |slots| && i != x ==> SameBut(after[i], slots[i])
  {
    hide Moved, SameBut, Value, Plus;
    var after := Moved(slots, free, a, x, end);
    MovedEnd(slots, free, a, x, end);
    forall i | 0 <= i < |slots| && i != x ensures SameBut(after[i], slots[i]) {
      MovedAt(slots, free, a, x, end, i);
    }
    forall i | 0 <= i < |slots| ensures after[i].sess == slots[i].sess && after[i].peerip == slots[i].peerip {
      if i != x { SameNames(after[i], slots[i]); }
    }
  }

  lemma {:induction false} MovedEnd(slots: seq<Slot>, free: seq<nat>, a: seq<nat>, x: nat, end: Slot)
    requires Below(free, |slots|) && Below(a, |slots|) && x < |slots|
    ensures Moved(slots, free, a, x, end)[x] == end
  {
  }

  lemma {:induction false} SameNames(s: Slot, t: Slot)
    requires SameBut(s, t)
    ensures s.sess == t.sess && s.peerip == t.peerip
  {
  }

  lemma {:induction false} NamedUpdate(slots: seq<Slot>, offset: nat, remote: Ip, i: nat, s: Slot)
    requires Named(slots, offset, remote) && i < |slots|
    requires s.sess == slots[i].sess && s.peerip == slots[i].peerip
    ensures Named(slots[i := s], offset, remote)
  {}

  lemma {:induction false} FreshFromFree(l: Lists, n: nat)
    requires Partition(l, n) && l.free != []
    ensures NoDup(l.free + l.busy) && l.free[0] < n && l.free[0] !in l.busy
    ensures |l.free| > 1 ==> l.free[|l.free| - 1] != l.free[0]
    ensures Below(Take(l).free, n) && Below(Take(l).busy, n)
  {
    var all := l.free + l.busy;
    assert forall k :: 0 <= k < |l.busy| ==> l.busy[k] == all[|l.free| + k];
    assert all[0] == l.free[0] && all[0] in all;
    if |l.free| > 1 { assert all[0] != all[|l.free| - 1]; }
    TakeKeepsPartition(l, n);
    PartitionBelow(Take(l), n);
  }

  lemma {:induction false} PartitionBelow(l: Lists, n: nat)
    requires Partition(l, n)
    ensures Below(l.free, n) && Below(l.busy, n) && NoDup(l.free + l.busy)
  {
    var all := l.free + l.busy;
    forall k | 0 <= k < |l.free| ensures l.free[k] < n { assert l.free[k] == all[k] && all[k] in all; }
    forall k | 0 <= k < |l.busy| ensures l.busy[k] < n {
      assert l.busy[k] == all[|l.free| + k] && all[|l.free| + k] in all;
    }
  }

  /** The start of the server, sequential or shuffled. */
  method NewPool(n: nat, offset: nat, remote: Ip, maxPerMac: nat, randomize: bool, rand: nat -> nat)
    returns (pool: Pool, ghost order: seq<nat>)
    requires n > 0 && n + offset <= MAX_IDS
    ensures order == StartOrder(n, randomize, rand)
    ensures Partition(Lists(order, []), n) && pool.Quiet() && pool.View() == Lists(order, []) && pool.log == []
    ensures pool.n == n && pool.offset == offset && pool.remote == remote && pool.maxPerMac == maxPerMac
    ensures fresh(pool) && fresh(pool.slots)
  {
    var start := seq(n, i => i);
    if randomize {
      start := Shuffle(n, rand);
    } else {
      forall x: nat ensures x in start + [] <==> x < n {
        if x < n { assert (start + [])[x] == x; }
      }
    }
    pool := new Pool(n, offset, remote, maxPerMac, start);
    order := start;
  }

  /** What can be seen of the pool after a run that began with the free list `start`. */
  ghost predicate InOrderAfter(slots: seq<Slot>, active: nat, l: Lists, offset: nat, remote: Ip, maxPerMac: nat) {
    && Partition(l, |slots|) && Below(l.busy, |slots|) && active == |l.busy|
    && Linked(slots, l.free) && Linked(slots, l.busy)
    && Named(slots, offset, remote) && Limited(slots, l.busy, maxPerMac)
    && forall i :: 0 <= i < |slots| ==> (slots[i].pid > 0 <==> i in l.busy)
  }

  /** A whole run of the server from its start, sequential or shuffled, through any events. */
  method RunServer(n: nat, offset: nat, remote: Ip, maxPerMac: nat, randomize: bool, rand: nat -> nat,
                   events: seq<Event>)
    returns (slots: seq<Slot>, active: nat, log: seq<Padt>, closed: seq<Padt>,
             ghost start: seq<nat>, ghost ops: seq<Op>)
    requires n > 0 && n + offset <= MAX_IDS
    ensures start == StartOrder(n, randomize, rand) && Partition(Lists(start, []), n) && |slots| == n
    ensures |ops| == |events| && forall k :: 0 <= k < |events| ==> OpOf(events[k], ops[k])
    ensures InOrderAfter(slots, active, Run(Lists(start, []), ops), offset, remote, maxPerMac)
    ensures Accounts(closed, Lists(start, []), ops, offset)
    ensures forall p: Padt :: Times(closed, p) <= Times(log, p)
  {
    hide Partition, Run, Settled, OpOf, Accounts, InOrderAfter, StartOrder;
    var pool;
    pool, start := NewPool(n, offset, remote, maxPerMac, randomize, rand);
    closed, ops := pool.Serve(events);
    Balance(closed, pool.Ledger(), offset, Lists(start, []), ops);
    slots, active, log := pool.slots[..], pool.numActive, pool.log;
    pool.Seen();
  }

  /** A slot that has never been used has no interface and an all-zero peer address: right after the
      start, a PADT with that source and any slot's number reaches the null interface. */
  method ZeroSourcePadt(n: nat, offset: nat, remote: Ip, maxPerMac: nat, order: seq<nat>, k: nat)
    returns (r: Termination)
    requires n > 0 && n + offset <= MAX_IDS && Partition(Lists(order, []), n) && k < n
    ensures r == NoInterface(k)
  {
    hide Partition, Linked, Limited, AllGood;
    var pool := new Pool(n, offset, remote, maxPerMac, order);
    ghost var slots := pool.slots[..];
    assert slots[k].sess == k + 1 + offset && slots[k].eth == NO_MAC && !slots[k].hasInterface;
    r := pool.Terminate(true, k + 1 + offset, NO_MAC);
    assert pool.slots[..][r.slot].sess == r.slot + 1 + offset;
  }
}
