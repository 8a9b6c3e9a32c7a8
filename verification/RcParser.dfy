/** The table-driven parser of the rcfile: the driver as a step function over its stacks, the loop
    that runs it, and its agreement with the grammar. */
module RcParser {
  import opened Options
  import opened RcTables
  import opened RcGrammar
  import opened RcSettings

  // The state stack, the trees of the symbols between its states, the unread tokens, and what the
  // semantic actions have built.
  datatype Config = Config(states: seq<int>, trees: seq<Tree>, rest: seq<Token>, env: Env) {
    function Top(): int
      requires states != []
    {
      states[|states| - 1]
    }

    function Look(): int { if rest == [] then 0 else rest[0].kind }

    // Push a state and a symbol.
    function Put(q: int, t: Tree, after: seq<Token>, env1: Env): Config {
      Config(states + [q], trees + [t], after, env1)
    }
  }

  // Which state may lie directly below which.
  predicate Below(p: int, q: int) {
    if q == 1 then BeforeIdentity(p)
    else if 2 <= q <= 13 then BeforeStatement(p)
    else if q == 14 || q == 15 || q == 17 then p == 0
    else if q == 16 then p == 0 || p == 17
    else if q == 18 then p in {0, 16, 34}
    else if q == 19 then BeforeMap(p)
    else if q == 20 then p == 1
    else if 21 <= q <= 30 then p == q - 18
    else if 31 <= q <= 32 then p == 13
    else if q == 34 then p == 15 || p == 36
    else if q == 35 then p == 16
    else if q == 36 then p == 17
    else if q == 37 then p in {17, 35, 53}
    else if 38 <= q <= 41 then p == q - 18
    else if 42 <= q <= 44 then p == 24
    else if 45 <= q <= 50 then p == q - 20
    else if 51 <= q <= 52 then p == q - 20
    else if q == 53 then p == 34
    else if 54 <= q <= 55 then p == q - 3
    else false
  }

  // The highest position a state can take on the stack.
  function Height(q: int): nat {
    if q == 0 then 1
    else if q in {14, 15, 17} then 2
    else if q in {16, 36} then 3
    else if q in {1, 34, 35} then 4
    else if q in {18, 20, 53} then 5
    else if 2 <= q <= 13 || q == 37 then 6
    else if 21 <= q <= 32 then 7
    else if q in {19, 51, 52} || 38 <= q <= 50 then 8
    else 9
  }

  ghost predicate LinkAt(c: Config, i: nat)
    requires i < |c.trees| && |c.states| == |c.trees| + 1
  {
    Below(c.states[i], c.states[i + 1]) && IsTree(c.trees[i]) && Symbol(c.trees[i]) == YyStos(c.states[i + 1])
  }

  // What every step keeps.
  ghost predicate Linked(c: Config) {
    && |c.states| == |c.trees| + 1
    && c.states[0] == 0
    && forall i :: 0 <= i < |c.trees| ==> LinkAt(c, i)
  }

  lemma {:induction false} StackShape(c: Config)
    requires Linked(c)
    ensures |c.states| == |c.trees| + 1 && c.states[0] == 0
  {
  }

  lemma {:induction false} BelowRises(p: int, q: int)
    requires Below(p, q)
    ensures Height(p) < Height(q) && 0 <= p < 56 && 0 < q < 56 && q != FINAL
  {
  }

  lemma {:induction false} StackFits(c: Config, n: nat)
    requires Linked(c) && n < |c.states|
    ensures n + 1 <= Height(c.states[n]) <= 9 && 0 <= c.states[n] < 56 && c.states[n] != FINAL
    ensures n > 0 ==> c.states[n] != 0
  {
    hide Below, IsTree, YyStos, Symbol;
    if n > 0 {
      StackFits(c, n - 1);
      assert LinkAt(c, n - 1);
      BelowRises(c.states[n - 1], c.states[n]);
    }
  }

  lemma {:induction false} Pushed(c: Config, q: int, t: Tree, rest: seq<Token>, env: Env)
    requires Linked(c) && Below(c.Top(), q) && IsTree(t) && Symbol(t) == YyStos(q)
    ensures Linked(c.Put(q, t, rest, env))
  {
    hide Below, IsTree, YyStos, Symbol;
    var d := c.Put(q, t, rest, env);
    forall i | 0 <= i < |d.trees| ensures LinkAt(d, i) {
      if i < |c.trees| { assert LinkAt(c, i); }
    }
  }

  // Take the top `k` symbols off.
  function Pop(c: Config, k: nat): Config
    requires k < |c.states| == |c.trees| + 1
  {
    Config(c.states[..|c.states| - k], c.trees[..|c.trees| - k], c.rest, c.env)
  }

  function Handle(c: Config, k: nat): seq<Tree>
    requires k <= |c.trees|
  {
    c.trees[|c.trees| - k..]
  }

  lemma {:induction false} Popped(c: Config, k: nat)
    requires Linked(c) && k <= |c.trees|
    ensures Linked(Pop(c, k))
  {
    hide Below, IsTree, YyStos, Symbol;
    var d := Pop(c, k);
    forall i | 0 <= i < |d.trees| ensures LinkAt(d, i) {
      assert LinkAt(c, i);
    }
  }

  // Reducing by rule `n` builds a node and pushes its goto.
  function Reduction(c: Config, n: int): Config
    requires 1 <= n <= 28 && |Rhs(n)| < |c.states| == |c.trees| + 1
  {
    var k := |Rhs(n)|;
    var base := Pop(c, k);
    base.Put(Goto(base.Top(), Lhs(n)), Node(n, Handle(c, k)), c.rest, Act(n, TopValue(Handle(c, k)), c.env))
  }

  // A state above whatever lies at `i`, with the symbol between them.
  lemma {:induction false} Peek(c: Config, i: nat)
    requires Linked(c) && i < |c.trees|
    ensures Below(c.states[i], c.states[i + 1]) && IsTree(c.trees[i]) && Symbol(c.trees[i]) == YyStos(c.states[i + 1])
  {
    assert LinkAt(c, i);
  }

  // Where a completed rule returns to: its goto is a state that may stand there.
  predicate Returns(p: int, n: int)
    requires 1 <= n <= 28
  {
    0 <= p < 56 && Below(p, Goto(p, Lhs(n))) && YyStos(Goto(p, Lhs(n))) == Lhs(n)
  }

  lemma {:induction false} Chain0(q: int)
    requires 0 <= q < 56 && q != FINAL && YyDefact(q) != 0
    ensures var n := YyDefact(q); 1 <= n <= 28 && (|Rhs(n)| == 0 ==> Returns(q, n)) && (|Rhs(n)| > 0 ==> q != 0)
  {
    hide Goto;
    GotoItems(q);
    GotoLists(q);
  }

  lemma {:induction false} Chain1(p: int, q: int)
    requires Below(p, q) && YyDefact(q) != 0
    ensures var n := YyDefact(q); 1 <= n <= 28 && (|Rhs(n)| == 1 ==> YyStos(q) == Rhs(n)[0] && Returns(p, n))
    ensures |Rhs(YyDefact(q))| > 1 ==> p != 0
  {
    hide Goto;
    BelowRises(p, q);
    GotoItems(p);
    GotoLists(p);
    GotoStatement(p);
  }

  lemma {:induction false} Chain2(p: int, r: int, q: int)
    requires Below(p, r) && Below(r, q) && YyDefact(q) != 0
    ensures var n := YyDefact(q);
            && 1 <= n <= 28
            && (|Rhs(n)| == 2 ==> YyStos(q) == Rhs(n)[1] && YyStos(r) == Rhs(n)[0] && Returns(p, n))
    ensures |Rhs(YyDefact(q))| > 2 ==> p != 0
  {
    hide Goto;
    BelowRises(p, r);
    BelowRises(r, q);
    GotoLists(p);
  }

  lemma {:induction false} LongRules(q: int)
    requires 0 <= q < 56 && YyDefact(q) != 0
    ensures 1 <= YyDefact(q) <= 28
    ensures |Rhs(YyDefact(q))| == 3 ==> 38 <= q <= 50 || q == 53
    ensures |Rhs(YyDefact(q))| > 3 <==> 54 <= q <= 55
  {
  }

  lemma {:induction false} Chain3(p: int, s: int, r: int, q: int)
    requires Below(p, s) && Below(s, r) && Below(r, q) && YyDefact(q) != 0
    ensures var n := YyDefact(q);
            && 1 <= n <= 28
            && (|Rhs(n)| == 3 ==>
                  && YyStos(q) == Rhs(n)[2] && YyStos(r) == Rhs(n)[1] && YyStos(s) == Rhs(n)[0]
                  && Returns(p, n))
    ensures |Rhs(YyDefact(q))| > 3 ==> p != 0
  {
    hide Goto, Rhs, YyDefact, YyStos, Lhs;
    BelowRises(p, s);
    BelowRises(r, q);
    LongRules(q);
    if 38 <= q <= 50 {
      ChainValue(p, s, r, q);
    } else if q == 53 {
      ChainIdentities(p, s);
    }
  }

  lemma {:induction false} ChainIdentities(p: int, s: int)
    requires Below(p, s) && Below(s, 34)
    ensures YyDefact(53) == 8 && Rhs(8) == [YyStos(s), YyStos(34), YyStos(53)] && Returns(p, 8)
  {
    hide Goto;
    GotoLists(p);
  }

  // The keyword state two below a value state.
  function KeyState(q: int): int {
    if q == 38 then 1 else if q < 42 then q - 36 else if q <= 44 then 6 else q - 38
  }

  lemma {:induction false} ValueRule(q: int)
    requires 38 <= q <= 50
    ensures var n := YyDefact(q); 1 <= n <= 28 && Rhs(n) == [YyStos(KeyState(q)), 27, YyStos(q)]
    ensures Lhs(YyDefact(q)) == if q == 38 then 28 else 30
  {
  }

  lemma {:induction false} ChainValue(p: int, s: int, r: int, q: int)
    requires Below(p, s) && Below(s, r) && Below(r, q) && 38 <= q <= 50
    ensures var n := YyDefact(q); 1 <= n <= 28 && Rhs(n) == [YyStos(s), YyStos(r), YyStos(q)] && Returns(p, n)
  {
    hide Goto, Rhs, YyDefact, Lhs;
    BelowRises(p, s);
    assert s == KeyState(q) && YyStos(r) == 27;
    ValueRule(q);
    if q == 38 {
      GotoItems(p);
    } else {
      GotoStatement(p);
    }
  }

  lemma {:induction false} Chain4(p: int, s: int, r: int, o: int, q: int)
    requires Below(p, s) && Below(s, r) && Below(r, o) && Below(o, q) && 54 <= q <= 55
    ensures var n := YyDefact(q);
            && 1 <= n <= 28 && Rhs(n) == [YyStos(s), YyStos(r), YyStos(o), YyStos(q)]
            && Returns(p, n)
  {
    hide Goto;
    assert s == 13;
    BelowRises(p, s);
    GotoStatement(p);
  }

  // The handle of a reduction, as a node of the grammar.
  ghost predicate Reducible(c: Config, n: int) {
    && 1 <= n <= 28 && |Rhs(n)| <= |c.trees| && |c.states| == |c.trees| + 1
    && IsTree(Node(n, Handle(c, |Rhs(n)|)))
    && Returns(c.states[|c.trees| - |Rhs(n)|], n)
  }

  // The symbols below a state that reduces are the right-hand side of its rule.
  lemma {:induction false} ReadyToReduce(c: Config)
    requires Linked(c) && YyDefact(c.Top()) != 0
    ensures Reducible(c, YyDefact(c.Top()))
  {
    hide Below, Linked, Rhs, YyDefact, YyStos, Returns, IsTree, Height, Symbol, Lhs, Goto, Handle, Reducible;
    StackShape(c);
    var m := |c.trees|;
    StackFits(c, m);
    Chain0(c.Top());
    if |Rhs(YyDefact(c.Top()))| < 2 {
      ShortHandle(c, m);
    } else {
      LongHandle(c, m);
    }
  }

  lemma {:induction false} ShortHandle(c: Config, m: nat)
    requires Linked(c) && YyDefact(c.Top()) != 0 && m == |c.trees|
    requires 1 <= YyDefact(c.Top()) <= 28 && |Rhs(YyDefact(c.Top()))| < 2
    ensures Reducible(c, YyDefact(c.Top()))
  {
    hide Below, Linked, Rhs, YyDefact, YyStos, Returns, IsTree, Height, Symbol, Lhs, Goto, Handle;
    StackShape(c);
    StackFits(c, m);
    Chain0(c.Top());
    if |Rhs(YyDefact(c.Top()))| == 1 {
      Peek(c, m - 1);
      Chain1(c.states[m - 1], c.states[m]);
    }
    HandleIsTree(c, YyDefact(c.Top()));
  }

  lemma {:induction false} LongHandle(c: Config, m: nat)
    requires Linked(c) && YyDefact(c.Top()) != 0 && m == |c.trees|
    requires 1 <= YyDefact(c.Top()) <= 28 && |Rhs(YyDefact(c.Top()))| >= 2
    ensures Reducible(c, YyDefact(c.Top()))
  {
    hide Below, Linked, Rhs, YyDefact, YyStos, Returns, IsTree, Height, Symbol, Lhs, Goto, Handle;
    StackShape(c);
    var n := YyDefact(c.Top());
    StackFits(c, m);
    Chain0(c.Top());
    Peek(c, m - 1);
    StackFits(c, m - 1);
    Chain1(c.states[m - 1], c.states[m]);
    Peek(c, m - 2);
    StackFits(c, m - 2);
    Chain2(c.states[m - 2], c.states[m - 1], c.states[m]);
    if |Rhs(n)| > 2 {
      Peek(c, m - 3);
      StackFits(c, m - 3);
      Chain3(c.states[m - 3], c.states[m - 2], c.states[m - 1], c.states[m]);
      if |Rhs(n)| > 3 {
        LongRules(c.states[m]);
        Peek(c, m - 4);
        Chain4(c.states[m - 4], c.states[m - 3], c.states[m - 2], c.states[m - 1], c.states[m]);
      }
    }
    HandleIsTree(c, n);
  }

  lemma {:induction false} HandleIsTree(c: Config, n: int)
    requires Linked(c) && 1 <= n <= 28 && |Rhs(n)| <= |c.trees|
    requires forall i :: 0 <= i < |Rhs(n)| ==> YyStos(c.states[|c.trees| - |Rhs(n)| + 1 + i]) == Rhs(n)[i]
    ensures IsTree(Node(n, Handle(c, |Rhs(n)|)))
  {
    hide Rhs, YyStos, Below;
    var k, m := |Rhs(n)|, |c.trees|;
    var kids := Handle(c, k);
    forall i | 0 <= i < k ensures IsTree(kids[i]) && Symbol(kids[i]) == Rhs(n)[i] {
      assert kids[i] == c.trees[m - k + i];
      assert LinkAt(c, m - k + i);
    }
  }

  lemma {:induction false} ReductionLinked(c: Config, n: int)
    requires Linked(c) && Reducible(c, n)
    ensures Linked(Reduction(c, n))
  {
    hide Linked, Rhs, Below, YyStos, Goto, IsTree, Lhs;
    var k := |Rhs(n)|;
    Popped(c, k);
    var base := Pop(c, k);
    assert base.Top() == c.states[|c.trees| - k];
    Pushed(base, Goto(base.Top(), Lhs(n)), Node(n, Handle(c, k)), c.rest, Act(n, TopValue(Handle(c, k)), c.env));
  }

  // Shifts lead to states that may stand above the current one.
  lemma {:induction false} ShiftLinked(c: Config, q: int)
    requires Linked(c) && ActionOf(c.Top(), c.Look()) == Shift(q)
    ensures c.rest != [] && Linked(c.Put(q, Leaf(c.rest[0]), c.rest[1..], c.env))
  {
    hide ActionOf, Linked, YyDefact;
    StackShape(c);
    StackFits(c, |c.trees|);
    TablesFollowPlan(c.Top(), c.Look());
    Pushed(c, q, Leaf(c.rest[0]), c.rest[1..], c.env);
  }

  // The driver reduces only by a state's default rule.
  lemma {:induction false} ReducesByDefault(s: int, t: int)
    requires 0 <= s < 56 && 0 <= t < 24
    ensures ActionOf(s, t).Reduce? ==> ActionOf(s, t).rule == YyDefact(s) != 0
    ensures ActionOf(s, t) == Accept <==> s == 14 && t == 0
  {
    hide ActionOf, YyDefact;
    TablesFollowPlan(s, t);
  }

  lemma {:induction false} ReduceLinked(c: Config, n: int)
    requires Linked(c) && ActionOf(c.Top(), c.Look()) == Reduce(n)
    ensures Reducible(c, n) && Linked(Reduction(c, n))
  {
    hide ActionOf, Linked, Reducible, Reduction, YyDefact;
    StackShape(c);
    StackFits(c, |c.trees|);
    ReducesByDefault(c.Top(), c.Look());
    ReadyToReduce(c);
    ReductionLinked(c, n);
  }

  lemma {:induction false} AcceptShape(c: Config)
    requires Linked(c) && ActionOf(c.Top(), c.Look()) == Accept
    ensures c.rest == [] && |c.trees| == 1 && IsTree(c.trees[0]) && Symbol(c.trees[0]) == ROOT
  {
    hide ActionOf, IsTree;
    StackFits(c, |c.trees|);
    ReducesByDefault(c.Top(), c.Look());
    Peek(c, |c.trees| - 1);
    StackFits(c, |c.trees| - 1);
  }

  // ---- Termination: reductions lower the weight, shifts shorten the input ----

  function Rank(q: int): nat {
    if q == 0 || BeforeMap(q) then 4
    else if q == 2 then 3
    else if q == 16 || q == 18 then 2
    else if q in {15, 17, 19, 36} then 1
    else 0
  }

  function Weight(c: Config): nat
    requires c.states != []
  {
    3 * |c.states| + Rank(c.Top())
  }

  lemma {:induction false} RankFalls(p: int, q: int)
    requires 0 <= q < 56 && q != FINAL && 0 <= p < 56 && YyDefact(q) != 0
    ensures var n := YyDefact(q);
            1 <= n <= 28
            && (Returns(p, n) ==> Rank(Goto(p, Lhs(n))) < Rank(q) + 3 * |Rhs(n)| - 3)
  {
    hide Goto;
    GotoItems(p);
    GotoLists(p);
    GotoStatement(p);
  }

  lemma {:induction false} ReductionFalls(c: Config, n: int)
    requires Linked(c) && ActionOf(c.Top(), c.Look()) == Reduce(n)
    ensures Reducible(c, n) && Weight(Reduction(c, n)) < Weight(c)
  {
    hide ActionOf, Linked, Rhs, Returns, YyDefact, Rank, Lhs, Goto;
    ReduceLinked(c, n);
    StackFits(c, |c.trees|);
    var p := c.states[|c.trees| - |Rhs(n)|];
    StackFits(c, |c.trees| - |Rhs(n)|);
    ReducesByDefault(c.Top(), c.Look());
    RankFalls(p, c.Top());
  }

  datatype Verdict = Accepted(tree: Tree, env: Env) | Rejected

  // One turn of the driver; a syntax error ends the program.
  ghost function Next(c: Config): Config
    requires Linked(c) && (ActionOf(c.Top(), c.Look()).Shift? || ActionOf(c.Top(), c.Look()).Reduce?)
    ensures Linked(Next(c))
    ensures |Next(c).rest| < |c.rest| || (|Next(c).rest| == |c.rest| && Weight(Next(c)) < Weight(c))
  {
    match ActionOf(c.Top(), c.Look())
    case Shift(q) =>
      ShiftLinked(c, q);
      c.Put(q, Leaf(c.rest[0]), c.rest[1..], c.env)
    case Reduce(n) =>
      ReduceLinked(c, n);
      ReductionFalls(c, n);
      Reduction(c, n)
  }

  // The driver from `c` on.
  ghost function Run(c: Config): Verdict
    requires Linked(c)
    decreases |c.rest|, Weight(c)
  {
    match ActionOf(c.Top(), c.Look())
    case Accept =>
      AcceptShape(c);
      Accepted(c.trees[0], c.env)
    case Fail => Rejected
    case _ => Run(Next(c))
  }

  function Start(w: seq<Token>): Config { Config([0], [], w, StartEnv) }

  // ---- Soundness ----

  // The stack's trees cover the consumed tokens, and the actions done are theirs.
  ghost predicate Covers(c: Config, w: seq<Token>) {
    YieldAll(c.trees) + c.rest == w && c.env == EvalAll(c.trees, StartEnv)
  }

  lemma {:induction false} ShiftCovers(c: Config, q: int, w: seq<Token>)
    requires Covers(c, w) && c.rest != []
    ensures Covers(c.Put(q, Leaf(c.rest[0]), c.rest[1..], c.env), w)
  {
    hide YieldAll, EvalAll;
    AddKid(c.trees, Leaf(c.rest[0]), StartEnv);
    assert c.rest == [c.rest[0]] + c.rest[1..];
  }

  lemma {:induction false} ReduceCovers(c: Config, n: int, w: seq<Token>)
    requires Covers(c, w) && Reducible(c, n)
    ensures Covers(Reduction(c, n), w)
  {
    hide YieldAll, EvalAll, Act, Goto, Returns, IsTree, Rhs, Lhs;
    var k := |Rhs(n)|;
    var base, kids := c.trees[..|c.trees| - k], Handle(c, k);
    assert c.trees == base + kids;
    YieldConcat(base, kids);
    EvalConcat(base, kids, StartEnv);
    AddKid(base, Node(n, kids), StartEnv);
  }

  lemma {:induction false} Sound(c: Config, w: seq<Token>)
    requires Linked(c) && Covers(c, w)
    ensures Run(c).Accepted? ==>
              var t := Run(c).tree;
              IsTree(t) && Symbol(t) == ROOT && Yield(t) == w && Run(c).env == Eval(t, StartEnv)
    decreases |c.rest|, Weight(c)
  {
    hide ActionOf, Linked, Reducible, Reduction, Weight, IsTree;
    StackShape(c);
    match ActionOf(c.Top(), c.Look())
    case Accept =>
      AcceptShape(c);
      assert c.trees == [c.trees[0]];
      OneKid(c.trees[0], StartEnv);
    case Fail =>
    case Shift(q) =>
      ShiftLinked(c, q);
      ShiftCovers(c, q, w);
      Sound(Next(c), w);
    case Reduce(n) =>
      ReduceLinked(c, n);
      ReduceCovers(c, n, w);
      Sound(Next(c), w);
  }

  // ---- Completeness: the driver retraces every tree of the grammar ----

  // `c` after reading `t` into state `q`.
  function After(c: Config, q: int, t: Tree, rest: seq<Token>): Config {
    c.Put(q, t, rest, Eval(t, c.env))
  }

  // From `c` the driver reads `t` and stands one symbol further.
  ghost predicate Reads(c: Config, q: int, t: Tree, rest: seq<Token>) {
    Linked(c) && Linked(After(c, q, t, rest)) && Run(c) == Run(After(c, q, t, rest))
  }

  lemma {:induction false} ShiftStep(c: Config, t: Tree, rest: seq<Token>, q: int)
    requires Linked(c) && t.Leaf? && c.rest == Yield(t) + rest && ActionOf(c.Top(), t.token.kind) == Shift(q)
    ensures Reads(c, q, t, rest)
  {
    hide ActionOf, Linked;
    StackShape(c);
    assert c.rest == [t.token] + rest;
    ShiftLinked(c, q);
    assert c.rest[1..] == rest;
  }

  // A reduction of the symbols above `c` leaves one node above `c`.
  lemma {:induction false} ReductionAbove(c: Config, d: Config, qs: seq<int>, t: Tree)
    requires |c.states| == |c.trees| + 1 && t.Node? && |qs| == |t.kids| && 1 <= t.rule <= 28 && |Rhs(t.rule)| == |qs|
    requires d.states == c.states + qs && d.trees == c.trees + t.kids && d.env == EvalAll(t.kids, c.env)
    ensures Reduction(d, t.rule) == After(c, Goto(c.Top(), Symbol(t)), t, d.rest)
  {
    hide Rhs, Goto, Act, Lhs, TopValue;
    var k := |qs|;
    assert d.trees[|d.trees| - k..] == t.kids;
    assert d.trees[..|d.trees| - k] == c.trees;
    assert d.states[..|d.states| - k] == c.states;
  }

  // Once the symbols of a right-hand side lie above `c`, the driver reduces to a node above `c`.
  lemma {:induction false} ReduceStep(c: Config, d: Config, qs: seq<int>, t: Tree)
    requires Linked(c) && Linked(d) && t.Node? && |qs| == |t.kids|
    requires d.states == c.states + qs && d.trees == c.trees + t.kids
    requires 1 <= t.rule <= 28 && |Rhs(t.rule)| == |qs| && ActionOf(d.Top(), d.Look()) == Reduce(t.rule)
    requires d.env == EvalAll(t.kids, c.env)
    requires Run(c) == Run(d)
    ensures Reads(c, Goto(c.Top(), Symbol(t)), t, d.rest)
  {
    hide ActionOf, Linked, Rhs, Goto, Lhs, Reduction, Reducible, Run, Next, After, EvalAll, Weight;
    StackShape(c);
    RunUnfolds(d);
    NextIsReduction(d, t.rule);
    ReductionAbove(c, d, qs, t);
  }

  lemma {:induction false} ReadMap(c: Config, t: Tree, rest: seq<Token>)
    requires Linked(c) && BeforeMap(c.Top()) && IsTree(t) && Symbol(t) == 27
    requires c.rest == Yield(t) + rest && rest != [] && rest[0].kind > 18
    ensures Reads(c, Goto(c.Top(), 27), t, rest)
  {
    hide ActionOf, Linked, Goto, Run, IsTree;
    StackShape(c);
    assert t.rule == 9 || t.rule == 10;
    KidsOf(t);
    if t.rule == 9 {
      NoKids(c.env);
      assert c.rest == rest;
      TablesFollowPlan(c.Top(), c.Look());
      ReduceStep(c, c, [], t);
    } else {
      var k := t.kids[0];
      LeafShape(k, c.env);
      assert t.kids == [k];
      OneKid(k, c.env);
      TablesFollowPlan(c.Top(), 18);
      ShiftStep(c, k, rest, 19);
      var d := After(c, 19, k, rest);
      TablesFollowPlan(19, d.Look());
      ReduceStep(c, d, [19], t);
    }
  }

  // The state that has seen all of a three-symbol setting.
  function DoneState(n: int): int {
    if n == 11 then 38 else if n == 27 then 48 else if 23 <= n <= 24 then n + 26 else n + 25
  }

  predicate Triple(n: int) { Valued(n) && n != 25 && n != 26 }

  lemma {:induction false} TripleStates(n: int)
    requires Triple(n)
    ensures |Rhs(n)| == 3 && Rhs(n)[1] == 27 && 18 < Rhs(n)[2] < 24
    ensures n == 11 ==> Rhs(n)[0] == 3
    ensures n != 11 ==> 4 <= Rhs(n)[0] <= 15
    ensures BeforeMap(Rhs(n)[0] - 2)
    ensures Plan(Goto(Rhs(n)[0] - 2, 27), Rhs(n)[2]) == Shift(DoneState(n)) && 0 <= Goto(Rhs(n)[0] - 2, 27) < 56
    ensures 38 <= DoneState(n) <= 50 && YyDefact(DoneState(n)) == n
  {
    hide Goto;
    GotoItems(Rhs(n)[0] - 2);
  }

  // Where a statement or an identity may begin.
  predicate Begins(p: int, n: int) {
    if n == 11 then BeforeIdentity(p) else BeforeStatement(p)
  }

  lemma {:induction false} ReadTriple(c: Config, t: Tree, rest: seq<Token>)
    requires Linked(c) && IsTree(t) && t.Node? && Triple(t.rule) && Begins(c.Top(), t.rule)
    requires c.rest == Yield(t) + rest
    ensures Reads(c, Goto(c.Top(), Symbol(t)), t, rest)
  {
    hide ActionOf, Linked, Goto, Run, IsTree, Rhs, YyDefact, EvalAll, YieldAll, Lhs, DoneState, Eval;
    var n := t.rule;
    StackShape(c);
    KidsOf(t);
    TripleStates(n);
    var a, m, v := t.kids[0], t.kids[1], t.kids[2];
    assert t.kids == [a, m, v];
    ThreeKids(a, m, v, c.env);
    LeafShape(a, c.env);
    LeafShape(v, c.env);
    MapShape(m, c.env);
    assert c.rest == Yield(a) + (Yield(m) + (Yield(v) + rest));
    TablesFollowPlan(c.Top(), a.token.kind);
    var q1 := a.token.kind - 2;
    ShiftStep(c, a, Yield(m) + (Yield(v) + rest), q1);
    var c1 := After(c, q1, a, Yield(m) + (Yield(v) + rest));
    ReadMap(c1, m, Yield(v) + rest);
    var q2 := Goto(q1, 27);
    var c2 := After(c1, q2, m, Yield(v) + rest);
    TablesFollowPlan(q2, v.token.kind);
    var q3 := DoneState(n);
    ShiftStep(c2, v, rest, q3);
    var c3 := After(c2, q3, v, rest);
    TablesFollowPlan(q3, c3.Look());
    assert c3.states == c.states + [q1, q2, q3] && c3.trees == c.trees + t.kids;
    ReduceStep(c, c3, [q1, q2, q3], t);
  }

  lemma {:induction false} ForceShape(t: Tree, env: Env, rest: seq<Token>)
    requires IsTree(t) && t.Node? && 25 <= t.rule <= 26
    ensures |t.kids| == 4 && t.kids[0].Leaf? && t.kids[1].Leaf? && t.kids[3].Leaf? && IsTree(t.kids[2])
    ensures t.kids[0].token.kind == 15 && t.kids[1].token.kind == 42 - t.rule && t.kids[3].token.kind == 22
    ensures Symbol(t.kids[2]) == 27 && Eval(t.kids[2], env) == env && EvalAll(t.kids, env) == env
    ensures Yield(t) + rest == Yield(t.kids[0]) + (Yield(t.kids[1]) + (Yield(t.kids[2]) + (Yield(t.kids[3]) + rest)))
  {
    hide EvalAll, YieldAll, Lhs, IsTree, Rhs;
    KidsOf(t);
    ForceRule(t.rule);
    var a, b, m, v := t.kids[0], t.kids[1], t.kids[2], t.kids[3];
    LeafShape(a, env);
    LeafShape(b, env);
    LeafShape(v, env);
    MapShape(m, env);
    assert t.kids == [a, b, m] + [v];
    ThreeKids(a, b, m, env);
    AddKid([a, b, m], v, env);
    assert Yield(t) == Yield(a) + Yield(b) + Yield(m) + Yield(v);
  }

  lemma {:induction false} ReadForce(c: Config, t: Tree, rest: seq<Token>)
    requires Linked(c) && IsTree(t) && t.Node? && 25 <= t.rule <= 26 && BeforeStatement(c.Top())
    requires c.rest == Yield(t) + rest
    ensures Reads(c, Goto(c.Top(), 30), t, rest)
  {
    hide ActionOf, Linked, Goto, Run, IsTree, YyDefact, EvalAll, YieldAll, Lhs, Rhs;
    var n := t.rule;
    StackShape(c);
    ForceShape(t, c.env, rest);
    var a, b, m, v := t.kids[0], t.kids[1], t.kids[2], t.kids[3];
    var r3 := Yield(v) + rest;
    var r2 := Yield(m) + r3;
    var r1 := Yield(b) + r2;
    assert c.rest == Yield(a) + r1;
    TablesFollowPlan(c.Top(), 15);
    ShiftStep(c, a, r1, 13);
    var c1 := After(c, 13, a, r1);
    TablesFollowPlan(13, 42 - n);
    var q2 := 57 - n;
    ShiftStep(c1, b, r2, q2);
    var c2 := After(c1, q2, b, r2);
    ReadMap(c2, m, r3);
    GotoItems(q2);
    var q3 := q2 + 20;
    var c3 := After(c2, q3, m, r3);
    TablesFollowPlan(q3, 22);
    ShiftStep(c3, v, rest, q3 + 3);
    var c4 := After(c3, q3 + 3, v, rest);
    TablesFollowPlan(q3 + 3, c4.Look());
    assert c4.states == c.states + [13, q2, q3, q3 + 3];
    assert c4.trees == c.trees + t.kids;
    ForceRule(n);
    ReduceStep(c, c4, [13, q2, q3, q3 + 3], t);
  }

  lemma {:induction false} ForceRule(n: int)
    requires 25 <= n <= 26
    ensures YyDefact(80 - n) == n && Rhs(n) == [15, 42 - n, 27, 22] && Lhs(n) == 30
  {
  }

  lemma {:induction false} ReadStatement(c: Config, t: Tree, rest: seq<Token>)
    requires Linked(c) && IsTree(t) && Symbol(t) == 30 && BeforeStatement(c.Top())
    requires c.rest == Yield(t) + rest
    ensures Reads(c, Goto(c.Top(), 30), t, rest)
  {
    hide ActionOf, Linked, Goto, Run, IsTree, EvalAll, YieldAll, Eval;
    if t.rule == 28 {
      StackShape(c);
      KidsOf(t);
      var k := t.kids[0];
      assert t.kids == [k] && Symbol(k) == 4;
      LeafShape(k, c.env);
      OneKid(k, c.env);
      TablesFollowPlan(c.Top(), 4);
      ShiftStep(c, k, rest, 2);
      var d := After(c, 2, k, rest);
      TablesFollowPlan(2, d.Look());
      ReduceStep(c, d, [2], t);
    } else if t.rule == 25 || t.rule == 26 {
      ReadForce(c, t, rest);
    } else {
      ReadTriple(c, t, rest);
    }
  }

  lemma {:induction false} ReadIdentity(c: Config, t: Tree, rest: seq<Token>)
    requires Linked(c) && IsTree(t) && Symbol(t) == 28 && BeforeIdentity(c.Top())
    requires c.rest == Yield(t) + rest
    ensures Reads(c, Goto(c.Top(), 28), t, rest)
  {
    hide ActionOf, Linked, Goto, Run, IsTree, EvalAll, YieldAll, Eval;
    assert t.rule == 11;
    ReadTriple(c, t, rest);
  }

  // Where a statement list begins, and the state it leaves the driver in.
  predicate BeforeList(p: int) { p in {0, 16, 34} }

  lemma {:induction false} ReadList(c: Config, t: Tree, rest: seq<Token>)
    requires Linked(c) && IsTree(t) && Symbol(t) == 29 && BeforeList(c.Top())
    requires c.rest == Yield(t) + rest
    ensures Reads(c, Goto(c.Top(), 29), t, rest)
    decreases t
  {
    hide ActionOf, Linked, Goto, Run, IsTree, EvalAll, YieldAll, Eval;
    StackShape(c);
    KidsOf(t);
    assert t.rule == 12 || t.rule == 13;
    var p := c.Top();
    GotoLists(p);
    if t.rule == 12 {
      var k := t.kids[0];
      assert t.kids == [k] && Symbol(k) == 30;
      OneKid(k, c.env);
      ReadStatement(c, k, rest);
      GotoStatement(p);
      var d := After(c, 18, k, rest);
      TablesFollowPlan(18, d.Look());
      ReduceStep(c, d, [18], t);
    } else {
      var k, l := t.kids[0], t.kids[1];
      assert t.kids == [k, l] && Symbol(k) == 29 && Symbol(l) == 30;
      TwoKids(k, l, c.env);
      assert c.rest == Yield(k) + (Yield(l) + rest);
      ReadList(c, k, Yield(l) + rest);
      var q := Goto(p, 29);
      var c1 := After(c, q, k, Yield(l) + rest);
      ReadStatement(c1, l, rest);
      GotoStatement(q);
      var d := After(c1, 37, l, rest);
      TablesFollowPlan(37, d.Look());
      assert d.states == c.states + [q, 37] && d.trees == c.trees + t.kids;
      ReduceStep(c, d, [q, 37], t);
    }
  }

  // What may follow a list of identities.
  predicate Closes(rest: seq<Token>) { rest == [] || rest[0].kind == IDENTITY }

  lemma {:induction false} IdentityOpens(t: Tree, rest: seq<Token>)
    requires IsTree(t) && Symbol(t) == 28
    ensures Closes(Yield(t) + rest)
  {
    hide IsTree, Yield;
    var head, sign, v := ValuedShape(t, StartEnv);
    assert head[0].kind == Rhs(11)[0] == 3;
  }

  lemma {:induction false} ReadIdentities(c: Config, t: Tree, rest: seq<Token>)
    requires Linked(c) && IsTree(t) && Symbol(t) == 26 && c.Top() in {0, 17}
    requires c.rest == Yield(t) + rest && Closes(rest)
    ensures Reads(c, Goto(c.Top(), 26), t, rest)
    decreases t
  {
    hide ActionOf, Linked, Goto, Run, IsTree, EvalAll, YieldAll, Eval;
    StackShape(c);
    KidsOf(t);
    var p := c.Top();
    assert 6 <= t.rule <= 8;
    if t.rule == 8 {
      ReadMoreIdentities(c, t, rest);
    } else {
      var k := t.kids[0];
      assert Symbol(k) == 28;
      GotoItems(p);
      if t.rule == 6 {
        assert t.kids == [k];
        OneKid(k, c.env);
        ReadIdentity(c, k, rest);
        var d := After(c, 16, k, rest);
        TablesFollowPlan(16, d.Look());
        ReduceStep(c, d, [16], t);
      } else {
        var l := t.kids[1];
        assert t.kids == [k, l] && Symbol(l) == 29;
        TwoKids(k, l, c.env);
        assert c.rest == Yield(k) + (Yield(l) + rest);
        ReadIdentity(c, k, Yield(l) + rest);
        var c1 := After(c, 16, k, Yield(l) + rest);
        ReadList(c1, l, rest);
        GotoLists(16);
        var d := After(c1, 35, l, rest);
        TablesFollowPlan(35, d.Look());
        assert d.states == c.states + [16, 35] && d.trees == c.trees + t.kids;
        ReduceStep(c, d, [16, 35], t);
      }
    }
  }

  lemma {:induction false} ReadMoreIdentities(c: Config, t: Tree, rest: seq<Token>)
    requires Linked(c) && IsTree(t) && t.Node? && t.rule == 8 && c.Top() in {0, 17}
    requires c.rest == Yield(t) + rest && Closes(rest)
    ensures Reads(c, Goto(c.Top(), 26), t, rest)
    decreases t, 0
  {
    hide ActionOf, Linked, Goto, Run, IsTree, EvalAll, YieldAll, Eval;
    StackShape(c);
    KidsOf(t);
    var k, l, m := t.kids[0], t.kids[1], t.kids[2];
    assert t.kids == [k, l, m] && Symbol(k) == 26 && Symbol(l) == 28 && Symbol(m) == 29;
    ThreeKids(k, l, m, c.env);
    var r2 := Yield(m) + rest;
    var r1 := Yield(l) + r2;
    assert c.rest == Yield(k) + r1;
    IdentityOpens(l, r2);
    ReadIdentities(c, k, r1);
    GotoLists(c.Top());
    var q := Goto(c.Top(), 26);
    var c1 := After(c, q, k, r1);
    ReadIdentity(c1, l, r2);
    GotoItems(q);
    var c2 := After(c1, 34, l, r2);
    ReadList(c2, m, rest);
    GotoLists(34);
    var d := After(c2, 53, m, rest);
    TablesFollowPlan(53, d.Look());
    assert d.states == c.states + [q, 34, 53] && d.trees == c.trees + t.kids;
    ReduceStep(c, d, [q, 34, 53], t);
  }

  lemma {:induction false} ReadRoot(c: Config, t: Tree)
    requires c == Start(Yield(t)) && IsTree(t) && Symbol(t) == ROOT
    ensures Reads(c, 14, t, [])
  {
    hide ActionOf, Linked, Goto, Run, IsTree, EvalAll, YieldAll, Eval;
    StartLinked(c.rest);
    KidsOf(t);
    GotoLists(0);
    assert c.rest == Yield(t) + [];
    if t.rule == 2 {
      NoKids(c.env);
      TablesFollowPlan(0, 0);
      ReduceStep(c, c, [], t);
    } else if t.rule == 5 {
      var k := t.kids[0];
      assert t.kids == [k] && Symbol(k) == 26;
      OneKid(k, c.env);
      ReadIdentities(c, k, []);
      TablesFollowPlan(15, 0);
      ReduceStep(c, After(c, 15, k, []), [15], t);
    } else {
      assert Symbol(t.kids[0]) == 29;
      ReadGlobals(c, t);
    }
  }

  // A file that begins with global statements.
  lemma {:induction false} ReadGlobals(c: Config, t: Tree)
    requires c == Start(Yield(t)) && IsTree(t) && t.Node? && 3 <= t.rule <= 4
    ensures Reads(c, 14, t, [])
  {
    hide ActionOf, Linked, Goto, Run, IsTree, EvalAll, YieldAll, Eval;
    StartLinked(c.rest);
    KidsOf(t);
    GotoLists(0);
    var k := t.kids[0];
    assert Symbol(k) == 29;
    if t.rule == 3 {
      assert t.kids == [k];
      OneKid(k, c.env);
      assert c.rest == Yield(k) + [];
      ReadList(c, k, []);
      TablesFollowPlan(17, 0);
      ReduceStep(c, After(c, 17, k, []), [17], t);
    } else {
      var l := t.kids[1];
      assert t.kids == [k, l] && Symbol(l) == 26;
      TwoKids(k, l, c.env);
      assert c.rest == Yield(k) + (Yield(l) + []);
      ReadList(c, k, Yield(l) + []);
      var c1 := After(c, 17, k, Yield(l) + []);
      ReadIdentities(c1, l, []);
      GotoLists(17);
      var d := After(c1, 36, l, []);
      TablesFollowPlan(36, 0);
      assert d.states == c.states + [17, 36] && d.trees == c.trees + t.kids;
      ReduceStep(c, d, [17, 36], t);
    }
  }

  lemma {:induction false} StartLinked(w: seq<Token>)
    ensures Linked(Start(w)) && Covers(Start(w), w)
  {
  }

  // The driver rebuilds any tree from its tokens, and does exactly that tree's actions.
  lemma {:induction false} DriverFindsTree(t: Tree)
    requires IsTree(t) && Symbol(t) == ROOT
    ensures Linked(Start(Yield(t))) && Run(Start(Yield(t))) == Accepted(t, Eval(t, StartEnv))
  {
    hide ActionOf, Linked, IsTree;
    var c := Start(Yield(t));
    ReadRoot(c, t);
    var d := After(c, 14, t, []);
    StackShape(d);
    TablesFollowPlan(14, 0);
  }

  // The tables accept exactly the language of the grammar.
  lemma {:induction false} DriverDecidesGrammar(w: seq<Token>)
    ensures Linked(Start(w))
    ensures Run(Start(w)).Accepted? <==> Derives(w)
    ensures Run(Start(w)).Accepted? ==> Run(Start(w)).env == Interpret(w, StartEnv)
  {
    hide Linked, Run, IsTree;
    StartLinked(w);
    Sound(Start(w), w);
    if Run(Start(w)).Accepted? {
      var t := Run(Start(w)).tree;
      TreeMeansTokens(t, [], StartEnv);
      assert w + [] == w;
    }
    if Derives(w) {
      var t :| IsTree(t) && Symbol(t) == ROOT && Yield(t) == w;
      DriverFindsTree(t);
    }
  }

  lemma {:induction false} GrammarUnambiguous(t: Tree, u: Tree)
    requires IsTree(t) && IsTree(u) && Symbol(t) == Symbol(u) == ROOT && Yield(t) == Yield(u)
    ensures t == u
  {
    hide Linked, Run, IsTree;
    DriverFindsTree(t);
    DriverFindsTree(u);
  }

  ghost predicate Halted(c: Config)
    requires Linked(c)
  {
    var a := ActionOf(c.Top(), c.Look());
    a.Accept? || a.Fail?
  }

  // The configuration after `k` turns, or when the driver stops.
  ghost function Nth(c: Config, k: nat): (d: Config)
    requires Linked(c)
    ensures Linked(d)
    decreases k
  {
    hide ActionOf, Linked, Weight;
    if k == 0 || Halted(c) then c else Nth(Next(c), k - 1)
  }

  // No run ever holds more than nine states.
  lemma {:induction false} StackNeverAboveNine(w: seq<Token>, k: nat)
    ensures Linked(Start(w)) && |Nth(Start(w), k).states| <= 9
  {
    hide Nth, Height;
    StartLinked(w);
    var d := Nth(Start(w), k);
    StackFits(d, |d.trees|);
  }

  lemma {:induction false} RuleLength(n: int)
    requires 1 <= n <= 28
    ensures YyR2(n) == |Rhs(n)|
  {
  }

  lemma {:induction false} DefaultIgnoresToken(s: int, t: int, u: int)
    requires YyPact(s) == PACTNONE
    ensures ActionOf(s, t) == ActionOf(s, u)
    ensures ActionOf(s, t).Reduce? || ActionOf(s, t).Fail?
  {
  }

  lemma {:induction false} RunUnfolds(c: Config)
    requires Linked(c)
    ensures match ActionOf(c.Top(), c.Look())
            case Accept => Run(c).Accepted? && Run(c).env == c.env
            case Fail => Run(c) == Rejected
            case _ => Linked(Next(c)) && Run(c) == Run(Next(c))
  {
    hide ActionOf, Linked;
  }

  lemma {:induction false} NextIsReduction(c: Config, n: int)
    requires Linked(c) && ActionOf(c.Top(), c.Look()) == Reduce(n)
    ensures Reducible(c, n) && Next(c) == Reduction(c, n)
  {
    hide ActionOf, Linked, Weight, Reducible, Reduction;
    ReduceLinked(c, n);
  }

  // What a reduction does to the two stacks.
  lemma {:induction false} NextReduces(c: Config, n: int)
    requires Linked(c) && ActionOf(c.Top(), c.Look()) == Reduce(n)
    ensures 1 <= n <= 28 && YyR2(n) <= |c.trees| == |c.states| - 1
    ensures var base, kids, d := |c.trees| - YyR2(n), Handle(c, YyR2(n)), Next(c);
            && Linked(d) && IsTree(Node(n, kids))
            && d.states == c.states[..base + 1] + [Goto(c.states[base], Lhs(n))]
            && d.trees == c.trees[..base] + [Node(n, kids)]
            && d.rest == c.rest && d.env == Act(n, TopValue(kids), c.env)
  {
    hide ActionOf, Linked, Weight, Rhs, Goto, Act, IsTree, Returns, YyR2, Lhs, Run, Next, TopValue, Handle;
    StackShape(c);
    NextIsReduction(c, n);
    RuleLength(n);
    var base := |c.trees| - YyR2(n);
    assert c.states[..base + 1][base] == c.states[base];
  }

  // The value stack holds the text of every token on the symbol stack.
  ghost predicate ValuesOf(vs: seq<string>, trees: seq<Tree>) {
    && |vs| == |trees| + 1
    && forall i :: 0 <= i < |trees| && trees[i].Leaf? ==> vs[i + 1] == trees[i].token.sval
  }

  lemma {:induction false} ValuesReduced(vs: seq<string>, trees: seq<Tree>, base: nat, v: string, t: Tree)
    requires ValuesOf(vs, trees) && base <= |trees| && (t.Leaf? ==> t.token.sval == v)
    ensures ValuesOf(vs[..base + 1] + [v], trees[..base] + [t])
  {
  }

  // The action may read the top of the value stack: a rule with an action ends in a token.
  lemma {:induction false} TopOfStack(n: int, c: Config, k: nat, vs: seq<string>)
    requires k <= |c.trees| && IsTree(Node(n, Handle(c, k))) && ValuesOf(vs, c.trees)
    ensures Act(n, vs[|vs| - 1], c.env) == Act(n, TopValue(Handle(c, k)), c.env)
  {
    hide IsTree;
    var kids := Handle(c, k);
    KidsOf(Node(n, kids));
    if Valued(n) {
      assert Symbol(kids[k - 1]) == Rhs(n)[k - 1];
      LeafShape(kids[k - 1], c.env);
      assert kids[k - 1] == c.trees[|c.trees| - 1];
    }
  }

  // What the arrays must hold after a reduction.
  lemma {:induction false} ReductionFits(c: Config, n: int)
    requires Linked(c) && ActionOf(c.Top(), c.Look()) == Reduce(n)
    ensures 1 <= n <= 28 && YyR2(n) <= |c.trees| == |c.states| - 1
  {
    hide ActionOf, Linked, Height, Weight, Rhs, Goto, Act, IsTree, Returns, YyR2, Lhs, Next, TopValue, Handle;
    NextReduces(c, n);
  }

  lemma {:induction false} StacksAfter(c: Config, n: int, vs: seq<string>, v: string)
    requires Linked(c) && ActionOf(c.Top(), c.Look()) == Reduce(n) && ValuesOf(vs, c.trees)
    ensures 1 <= n <= 28 && YyR2(n) <= |c.trees| == |c.states| - 1
    ensures var base, d := |c.trees| - YyR2(n), Next(c);
            && Linked(d) && |d.trees| == base + 1 < 9
            && d.states == c.states[..base + 1] + [Goto(c.states[base], Lhs(n))]
            && ValuesOf(vs[..base + 1] + [v], d.trees)
            && d.rest == c.rest && d.env == Act(n, vs[|vs| - 1], c.env)
  {
    hide ActionOf, Linked, Height, Weight, Rhs, Goto, Act, IsTree, Returns, YyR2, Lhs, Next, TopValue, Handle;
    NextReduces(c, n);
    var d, base := Next(c), |c.trees| - YyR2(n);
    StackFits(d, |d.trees|);
    TopOfStack(n, c, YyR2(n), vs);
  }

  const YYINITDEPTH := 200
  const YYEMPTY := -2
  const YYEOF := 0

  class Parser {
    const tokens: seq<Token>
    const yyss: array<int>
    const yyvs: array<string>
    var yyssp: nat
    var yychar: int
    var yylval: string
    var taken: nat
    var env: Env
    ghost var c: Config

    constructor (w: seq<Token>)
      ensures Valid() && c == Start(w) && tokens == w && env == StartEnv && fresh(yyss) && fresh(yyvs)
    {
      tokens := w;
      yyss, yyvs := new int[YYINITDEPTH], new string[YYINITDEPTH];
      yyssp, yychar, yylval, taken := 0, YYEMPTY, "", 0;
      env := StartEnv;
      c := Start(w);
      new;
      yyss[0] := 0;
      StartLinked(w);
      assert yyss[..1] == [0];
    }

    // The unread tokens, the lookahead among them.
    ghost function Unread(): seq<Token>
      reads this`yychar, this`taken
    {
      if yychar == YYEMPTY then if taken <= |tokens| then tokens[taken..] else []
      else if yychar == YYEOF then []
      else if 0 < taken <= |tokens| then tokens[taken - 1..] else []
    }

    ghost predicate Valid()
      reads this, yyss, yyvs
    {
      && yyss.Length == yyvs.Length == YYINITDEPTH
      && Linked(c) && yyssp == |c.trees| < 9
      && yyss[..yyssp + 1] == c.states
      && ValuesOf(yyvs[..yyssp + 1], c.trees)
      && env == c.env && Reading(c.rest)
    }

    // The lookahead and the tokens still to come.
    ghost predicate Reading(rest: seq<Token>)
      reads this`yychar, this`yylval, this`taken
    {
      && taken <= |tokens| && rest == Unread()
      && (yychar == YYEOF ==> taken == |tokens|)
      && (yychar != YYEOF && yychar != YYEMPTY ==>
            taken > 0 && yychar == tokens[taken - 1].kind && yylval == tokens[taken - 1].sval)
    }

    // The state on top; the stack is never near its end.
    method TopState() returns (s: int)
      requires Valid()
      ensures s == c.Top() && yyssp < 9
    {
      hide Linked;
      StackShape(c);
      s := yyss[yyssp];
    }

    // Read a lookahead token if there is none.
    method ReadToken()
      requires Valid()
      modifies this`yychar, this`yylval, this`taken
      ensures Valid() && yychar != YYEMPTY && yychar == c.Look()
    {
      hide Linked;
      if yychar == YYEMPTY {
        if taken < |tokens| {
          yychar, yylval := tokens[taken].kind, tokens[taken].sval;
          taken := taken + 1;
        } else {
          yychar := YYEOF;
        }
      }
    }

    // Push a state and a value above the entry at `base`.
    method Push(base: nat, q: int, v: string)
      requires base < 9 && yyss.Length == yyvs.Length == YYINITDEPTH
      modifies this`yyssp, yyss, yyvs
      ensures yyssp == base + 1
      ensures yyss[..yyssp + 1] == old(yyss[..base + 1]) + [q]
      ensures yyvs[..yyssp + 1] == old(yyvs[..base + 1]) + [v]
    {
      yyssp := base + 1;
      yyvs[yyssp] := v;
      yyss[yyssp] := q;
    }

    method ShiftToken(q: int)
      requires Valid() && yychar != YYEMPTY && ActionOf(c.Top(), c.Look()) == Shift(q)
      modifies this`yyssp, this`yychar, this`c, yyss, yyvs
      ensures Valid() && c == Next(old(c)) && env == c.env
    {
      hide ActionOf, Linked, Height, Weight, ValuesOf;
      StackShape(c);
      ShiftLinked(c, q);
      ghost var d := Next(c);
      StackFits(d, |d.trees|);
      ValuesReduced(yyvs[..yyssp + 1], c.trees, yyssp, yylval, d.trees[yyssp]);
      assert yyvs[..yyssp + 1][..yyssp + 1] == yyvs[..yyssp + 1];
      assert c.trees[..yyssp] == c.trees;
      Push(yyssp, q, yylval);
      yychar := YYEMPTY;
      c := d;
    }

    // yyreduce: run the rule's action, then replace its symbols by the goto state.
    method Replace(n: int)
      requires yyss.Length == yyvs.Length == YYINITDEPTH && 1 <= n <= 28 && YyR2(n) <= yyssp < 9
      modifies this`yyssp, this`env, yyss, yyvs
      ensures var base := old(yyssp) - YyR2(n);
              && yyssp == base + 1
              && yyss[..yyssp + 1] == old(yyss[..base + 1]) + [Goto(old(yyss[base]), Lhs(n))]
              && yyvs[..yyssp + 1] == old(yyvs[..base + 1]) + [old(yyvs[base + 1])]
              && env == Act(n, old(yyvs[yyssp]), old(env))
    {
      hide Goto, Act, YyR2, Lhs;
      var yylen := YyR2(n);
      var yyval := yyvs[yyssp + 1 - yylen];
      env := Act(n, yyvs[yyssp], env);
      var base := yyssp - yylen;
      Push(base, Goto(yyss[base], Lhs(n)), yyval);
    }

    method ReduceRule(n: int)
      requires Valid() && ActionOf(c.Top(), c.Look()) == Reduce(n)
      modifies this`yyssp, this`env, this`c, yyss, yyvs
      ensures Valid() && c == Next(old(c)) && env == c.env
    {
      hide ActionOf, Linked, Height, Weight, Rhs, Goto, Act, IsTree, Returns, YyR2, Lhs, Reduction, Next, Run,
        Reducible, ValuesOf, TopValue, Handle, Reading;
      ReductionFits(c, n);
      ghost var vs, base := yyvs[..yyssp + 1], |c.trees| - YyR2(n);
      ghost var d := Next(c);
      StacksAfter(c, n, vs, yyvs[base + 1]);
      assert yyvs[..base + 1] == vs[..base + 1] && yyss[..base + 1] == c.states[..base + 1];
      assert c.states[base] == yyss[base] && vs[|vs| - 1] == yyvs[yyssp];
      Replace(n);
      assert yyss[..yyssp + 1] == d.states;
      assert ValuesOf(yyvs[..yyssp + 1], d.trees);
      c := d;
    }

    // yyparse.  A syntax error exits the program.
    method YyParse() returns (accepted: bool, grown: bool)
      requires Valid() && c == Start(tokens) && env == StartEnv
      modifies this, yyss, yyvs
      ensures accepted <==> Derives(tokens)
      ensures accepted ==> env == Interpret(tokens, StartEnv)
      ensures !grown
    {
      hide Linked, ActionOf, Weight, Derives, Interpret, Run, Next, Valid, YyPact;
      DriverDecidesGrammar(tokens);
      grown := false;
      while true
        invariant Valid() && !grown
        invariant Linked(c) && c.states != [] && env == c.env
        invariant Linked(Start(tokens)) && Run(c) == Run(Start(tokens))
        decreases |c.rest|, Weight(c)
      {
        var yystate := TopState();
        grown := grown || YYINITDEPTH - 1 <= yyssp;
        if YyPact(yystate) != PACTNONE {
          ReadToken();
        }
        var yytoken := if yychar <= YYEOF then YYEOF else yychar;
        if YyPact(yystate) == PACTNONE {
          DefaultIgnoresToken(yystate, yytoken, c.Look());
        }
        StackShape(c);
        RunUnfolds(c);
        match ActionOf(yystate, yytoken)
        case Accept =>
          return true, grown;
        case Fail =>
          return false, grown;
        case Shift(q) =>
          ShiftToken(q);
          StackShape(c);
        case Reduce(n) =>
          ReduceRule(n);
          StackShape(c);
      }
    }
  }

  // The configuration part of rcfile_parse: parse the tokens, then settle the default identity.
  method RcfileParse(tokens: seq<Token>, encryption: bool) returns (result: Option<Env>)
    ensures result.Some? <==> Derives(tokens)
    ensures result.Some? ==> result.value == Finish(Interpret(tokens, StartEnv), encryption)
    ensures result.Some? ==> FileHolds(tokens, result.value, encryption)
  {
    hide Derives, Interpret, FileHolds;
    var parser := new Parser(tokens);
    var accepted, _ := parser.YyParse();
    if !accepted {
      return None;
    }
    result := Some(Finish(parser.env, encryption));
    SettingsOfFile(tokens, encryption);
  }

  /** Every setting of an accepted file, read off its tokens. */
  lemma {:induction false} SettingsOfFile(w: seq<Token>, encryption: bool)
    requires Derives(w)
    ensures FileHolds(w, Finish(Interpret(w, StartEnv), encryption), encryption)
  {
    hide IsTree, Eval, Yield, Interpret, FileHolds, Holds;
    var t :| IsTree(t) && Symbol(t) == ROOT && Yield(t) == w;
    FileStored(t);
    FinishHolds(w, Eval(t, StartEnv), encryption);
    TreeMeansTokens(t, [], StartEnv);
    assert w + [] == w;
    NothingLeft(Eval(t, StartEnv));
  }

  // The default identity of an accepted file, read off its tokens.
  lemma {:induction false} DefaultIdentityOfFile(w: seq<Token>, encryption: bool, i: nat)
    requires Derives(w)
    ensures var env := Finish(Interpret(w, StartEnv), encryption);
            && |env.past| == Opened(w)
            && (LastDefault(w, i) ==> env.chosen == Some(Opened(w[..i])))
            && (NoDefault(w) && FirstSetting(w, i) ==> env.chosen == Some(Opened(w[..i])))
            && (NoDefault(w) && NoSetting(w) ==> env.chosen == Some(Opened(w)))
  {
    hide IsTree, Eval, Yield, Interpret, Opened;
    var t :| IsTree(t) && Symbol(t) == ROOT && Yield(t) == w;
    DefaultIdentity(t, encryption, i);
    TreeMeansTokens(t, [], StartEnv);
    assert w + [] == w;
    NothingLeft(Eval(t, StartEnv));
  }

  lemma {:induction false} NothingLeft(env: Env)
    ensures Interpret([], env) == env
  {
  }
}
