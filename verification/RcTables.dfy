// The compressed tables of the rcfile parser, and what they say once unpacked.
module RcTables {
  const FINAL := 33
  const LAST := 64
  const PACTNONE := -18
  const TABLENONE := -1
  const NONTERMINALS := 24

  // Where the row of a state starts in YyTable; PactNone when the state always takes its default.
  function YyPact(s: int): int
  {
    match s
    case 0 => 34 case 1 => -6 case 3 => -6 case 4 => -6 case 5 => -6 case 6 => -6 case 7 => -6 case 8 => -6
    case 9 => -6 case 10 => -6 case 11 => -6 case 12 => -6 case 13 => 3 case 14 => 17 case 15 => 18 case 16 => 46
    case 17 => 34 case 20 => 0 case 21 => 1 case 22 => 2 case 23 => 4 case 24 => -5 case 25 => 5 case 26 => 6
    case 27 => 11 case 28 => 12 case 29 => 13 case 30 => 40 case 31 => -6 case 32 => -6 case 34 => 46 case 35 => 46
    case 36 => 18 case 51 => 41 case 52 => 42 case 53 => 46
    case _ => -18
  }

  // The rule a state reduces by when the table says nothing; 0 is an error.
  function YyDefact(s: int): int
  {
    match s
    case 0 => 2 case 1 => 9 case 2 => 28 case 3 => 9 case 4 => 9 case 5 => 9 case 6 => 9 case 7 => 9 case 8 => 9
    case 9 => 9 case 10 => 9 case 11 => 9 case 12 => 9 case 15 => 5 case 16 => 6 case 17 => 3 case 18 => 12
    case 19 => 10 case 31 => 9 case 32 => 9 case 33 => 1 case 35 => 7 case 36 => 4 case 37 => 13 case 38 => 11
    case 39 => 14 case 40 => 15 case 41 => 16 case 42 => 17 case 43 => 18 case 44 => 19 case 45 => 20 case 46 => 21
    case 47 => 22 case 48 => 27 case 49 => 23 case 50 => 24 case 53 => 8 case 54 => 26 case 55 => 25
    case _ => 0
  }

  // Where the goto column of a nonterminal starts in YyTable.
  function YyPgoto(a: int): int
    requires 24 <= a <= 30
  {
    match a - 24
    case 0 => -18 case 1 => -18 case 2 => 8 case 3 => -2 case 4 => -4 case 5 => -3
    case _ => -17
  }

  // The usual goto of a nonterminal.
  function YyDefgoto(a: int): int
    requires 24 <= a <= 30
  {
    match a - 24
    case 0 => -1 case 1 => 14 case 2 => 15 case 3 => 20 case 4 => 16 case 5 => 17
    case _ => 18
  }

  // All rows and columns, laid over each other.
  function YyTable(i: int): int
    requires 0 <= i <= LAST
  {
    match i
    case 0 => 37 case 1 => 21 case 2 => 22 case 3 => 23 case 4 => 24 case 5 => 25 case 6 => 26 case 7 => 27
    case 8 => 28 case 9 => 29 case 10 => 30 case 11 => 34 case 12 => 19 case 13 => 35 case 14 => 42 case 15 => 43
    case 16 => 44 case 17 => 33 case 18 => 37 case 19 => 31 case 20 => 32 case 21 => 1 case 22 => 38 case 23 => 39
    case 24 => 40 case 25 => 36 case 26 => 41 case 27 => 45 case 28 => 46 case 29 => 51 case 30 => 52 case 31 => 53
    case 32 => 34 case 33 => 47 case 34 => 48 case 35 => 49 case 36 => 37 case 37 => 1 case 38 => 2 case 39 => 3
    case 40 => 4 case 41 => 5 case 42 => 6 case 43 => 7 case 44 => 8 case 45 => 9 case 46 => 10 case 47 => 11
    case 48 => 12 case 49 => 13 case 50 => 2 case 51 => 3 case 52 => 4 case 53 => 5 case 54 => 6 case 55 => 7
    case 56 => 8 case 57 => 9 case 58 => 10 case 59 => 11 case 60 => 12 case 61 => 13 case 62 => 50 case 63 => 54
    case _ => 55
  }

  // Which token or state an entry of YyTable belongs to.
  function YyCheck(i: int): int
    requires 0 <= i <= LAST
  {
    match i
    case 0 => 17 case 1 => 3 case 2 => 4 case 3 => 5 case 4 => 6 case 5 => 7 case 6 => 8 case 7 => 9 case 8 => 10
    case 9 => 11 case 10 => 12 case 11 => 15 case 12 => 18 case 13 => 16 case 14 => 19 case 15 => 20 case 16 => 21
    case 17 => 0 case 18 => 35 case 19 => 16 case 20 => 17 case 21 => 3 case 22 => 22 case 23 => 22 case 24 => 22
    case 25 => 17 case 26 => 22 case 27 => 22 case 28 => 22 case 29 => 31 case 30 => 32 case 31 => 34 case 32 => 36
    case 33 => 22 case 34 => 22 case 35 => 22 case 36 => 53 case 37 => 3 case 38 => 4 case 39 => 5 case 40 => 6
    case 41 => 7 case 42 => 8 case 43 => 9 case 44 => 10 case 45 => 11 case 46 => 12 case 47 => 13 case 48 => 14
    case 49 => 15 case 50 => 4 case 51 => 5 case 52 => 6 case 53 => 7 case 54 => 8 case 55 => 9 case 56 => 10
    case 57 => 11 case 58 => 12 case 59 => 13 case 60 => 14 case 61 => 15 case 62 => 22 case 63 => 22
    case _ => 22
  }

  // The symbol that leads into a state.
  function YyStos(s: int): int
  {
    match s
    case 0 => 0 case 1 => 3 case 2 => 4 case 3 => 5 case 4 => 6 case 5 => 7 case 6 => 8 case 7 => 9 case 8 => 10
    case 9 => 11 case 10 => 12 case 11 => 13 case 12 => 14 case 13 => 15 case 14 => 25 case 15 => 26 case 16 => 28
    case 17 => 29 case 18 => 30 case 19 => 18 case 20 => 27 case 21 => 27 case 22 => 27 case 23 => 27 case 24 => 27
    case 25 => 27 case 26 => 27 case 27 => 27 case 28 => 27 case 29 => 27 case 30 => 27 case 31 => 16 case 32 => 17
    case 33 => 0 case 34 => 28 case 35 => 29 case 36 => 26 case 37 => 30 case 42 => 19 case 43 => 20 case 44 => 21
    case 51 => 27 case 52 => 27 case 53 => 29
    case _ => 22
  }

  // How many symbols a rule takes off the stack.
  function YyR2(n: int): nat {
    match n
    case 1 => 2 case 2 => 0 case 3 => 1 case 4 => 2 case 5 => 1 case 6 => 1 case 7 => 2 case 9 => 0 case 10 => 1
    case 12 => 1 case 13 => 2 case 25 => 4 case 26 => 4 case 28 => 1
    case _ => 3
  }

  datatype Action = Shift(state: int) | Reduce(rule: int) | Accept | Fail

  function Default(s: int): Action {
    if YyDefact(s) == 0 then Fail else Reduce(YyDefact(s))
  }

  // What the driver does in state `s` on lookahead `t`.
  function ActionOf(s: int, t: int): Action {
    var p := YyPact(s);
    if p == PACTNONE then Default(s)
    else
      var i := p + t;
      if i < 0 || LAST < i || YyCheck(i) != t then Default(s)
      else
        var n := YyTable(i);
        if n <= 0 then if n == 0 || n == TABLENONE then Fail else Reduce(-n)
        else if n == FINAL then Accept
        else Shift(n)
  }

  // The state pushed when a nonterminal `a` is completed above state `p`.
  function Goto(p: int, a: int): int
    requires NONTERMINALS <= a <= 30
  {
    var i := YyPgoto(a) + p;
    if 0 <= i <= LAST && YyCheck(i) == p then YyTable(i) else YyDefgoto(a)
  }

  // States in which a statement may begin, an identity may begin, a map sign may stand.
  predicate BeforeStatement(s: int) { s in {0, 16, 17, 34, 35, 53} }

  predicate BeforeIdentity(s: int) { s in {0, 15, 17, 36} }

  predicate BeforeMap(s: int) { s == 1 || 3 <= s <= 12 || s == 31 || s == 32 }

  // The shifts, read off the grammar instead of the tables.
  function Plan(s: int, t: int): Action {
    if BeforeStatement(s) && 4 <= t <= 15 then Shift(t - 2)
    else if BeforeIdentity(s) && t == 3 then Shift(1)
    else if BeforeMap(s) && t == 18 then Shift(19)
    else if s == 13 && 16 <= t <= 17 then Shift(t + 15)
    else if s == 14 && t == 0 then Accept
    else if 20 <= s <= 23 && t == 22 then Shift(s + 18)
    else if s == 24 && 19 <= t <= 21 then Shift(t + 23)
    else if 25 <= s <= 30 && t == 22 then Shift(s + 20)
    else if 51 <= s <= 52 && t == 22 then Shift(s + 3)
    else Default(s)
  }

  lemma {:induction false} MapRows(s: int, t: int)
    requires BeforeMap(s) && 0 <= t < 24
    ensures ActionOf(s, t) == Plan(s, t)
  {
  }

  lemma {:induction false} StartRows(s: int, t: int)
    requires s in {0, 17} && 0 <= t < 24
    ensures ActionOf(s, t) == Plan(s, t)
  {
    assert YyPact(s) == 34;
  }

  lemma {:induction false} StatementKeywords(t: int)
    requires 0 <= t < 24
    ensures 46 + t <= LAST && YyCheck(46 + t) == t <==> 4 <= t <= 15
    ensures 4 <= t <= 15 ==> YyTable(46 + t) == t - 2
  {
  }

  lemma {:induction false} StatementRows(s: int, t: int)
    requires s in {16, 34, 35, 53} && 0 <= t < 24
    ensures ActionOf(s, t) == Plan(s, t)
  {
    hide YyCheck, YyTable;
    assert YyPact(s) == 46;
    StatementKeywords(t);
  }

  lemma {:induction false} IdentityRows(s: int, t: int)
    requires s in {15, 36} && 0 <= t < 24
    ensures ActionOf(s, t) == Plan(s, t)
  {
    assert YyPact(s) == 18;
  }

  lemma {:induction false} ValueRows(s: int, t: int)
    requires s == 13 || s == 14 || 20 <= s <= 26
    requires 0 <= t < 24
    ensures ActionOf(s, t) == Plan(s, t)
  {
  }

  lemma {:induction false} LateValueRows(s: int, t: int)
    requires 27 <= s <= 29
    requires 0 <= t < 24
    ensures ActionOf(s, t) == Plan(s, t)
  {
  }

  lemma {:induction false} LastValueRows(s: int, t: int)
    requires s in {30, 51, 52} && 0 <= t < 24
    ensures ActionOf(s, t) == Plan(s, t)
  {
  }

  // The overlaid tables hold exactly the grammar's shifts.
  lemma {:induction false} TablesFollowPlan(s: int, t: int)
    requires 0 <= s < 56 && 0 <= t < 24
    ensures ActionOf(s, t) == Plan(s, t)
  {
    hide YyTable, YyCheck;
    if BeforeMap(s) {
      MapRows(s, t);
    } else if s in {0, 17} {
      StartRows(s, t);
    } else if s in {16, 34, 35, 53} {
      StatementRows(s, t);
    } else if s in {15, 36} {
      IdentityRows(s, t);
    } else if s in {30, 51, 52} {
      LastValueRows(s, t);
    } else if 27 <= s <= 29 {
      LateValueRows(s, t);
    } else if s == 13 || s == 14 || 20 <= s <= 26 {
      ValueRows(s, t);
    } else {
      assert YyPact(s) == PACTNONE;
    }
  }

  // The gotos, read off the grammar.
  lemma {:induction false} GotoLists(p: int)
    requires 0 <= p < 56
    ensures Goto(p, 25) == 14
    ensures Goto(p, 26) == if p == 17 then 36 else 15
    ensures Goto(p, 29) == if p == 16 then 35 else if p == 34 then 53 else 17
  {
  }

  lemma {:induction false} GotoItems(p: int)
    requires 0 <= p < 56
    ensures Goto(p, 27) == if 3 <= p <= 12 then p + 18 else if 31 <= p <= 32 then p + 20 else 20
    ensures Goto(p, 28) == if p == 15 || p == 36 then 34 else 16
  {
  }

  lemma {:induction false} GotoStatement(p: int)
    requires 0 <= p < 56
    ensures Goto(p, 30) == if p == 17 || p == 35 || p == 53 then 37 else 18
  {
  }
}
