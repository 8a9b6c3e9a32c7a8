// The grammar of the rcfile: its rules, parse trees, and what a tree means.
module RcGrammar {
  import opened Options

  // Token numbers after yytranslate; 0 is the end of the file and never stands in the input.
  type Kind = k: nat | 1 <= k < 24 witness 1

  datatype Token = Token(kind: Kind, sval: string)

  const IDENTITY := 3
  const DEFAULT := 4
  const MDA := 12
  const FORCE := 15
  const MAP := 18

  const ROOT := 25

  function Lhs(n: int): (a: int)
    requires 1 <= n <= 28
    ensures 24 <= a <= 30
  {
    match n
    case 1 => 24 case 2 => 25 case 3 => 25 case 4 => 25 case 5 => 25 case 6 => 26 case 7 => 26 case 8 => 26
    case 9 => 27 case 10 => 27 case 11 => 28 case 12 => 29 case 13 => 29
    case _ => 30
  }

  // The right-hand side of each rule.
  function Rhs(n: int): seq<int>
    requires 1 <= n <= 28
  {
    match n
    case 1 => [25, 0]
    case 2 => []
    case 3 => [29]
    case 4 => [29, 26]
    case 5 => [26]
    case 6 => [28]
    case 7 => [28, 29]
    case 8 => [26, 28, 29]
    case 9 => []
    case 10 => [18]
    case 11 => [3, 27, 22]
    case 12 => [30]
    case 13 => [29, 30]
    case 14 => [5, 27, 22]
    case 15 => [6, 27, 22]
    case 16 => [7, 27, 22]
    case 17 => [8, 27, 19]
    case 18 => [8, 27, 20]
    case 19 => [8, 27, 21]
    case 20 => [9, 27, 22]
    case 21 => [10, 27, 22]
    case 22 => [11, 27, 22]
    case 23 => [13, 27, 22]
    case 24 => [14, 27, 22]
    case 25 => [15, 17, 27, 22]
    case 26 => [15, 16, 27, 22]
    case 27 => [12, 27, 22]
    case _ => [4]
  }

  datatype Tree = Leaf(token: Token) | Node(rule: int, kids: seq<Tree>)

  function Symbol(t: Tree): int {
    match t
    case Leaf(token) => token.kind
    case Node(rule, _) => if 1 <= rule <= 28 then Lhs(rule) else -1
  }

  // Every node applies a rule of the grammar.
  ghost predicate IsTree(t: Tree) {
    t.Leaf? ||
    (1 <= t.rule <= 28 && |t.kids| == |Rhs(t.rule)|
     && forall i :: 0 <= i < |t.kids| ==> IsTree(t.kids[i]) && Symbol(t.kids[i]) == Rhs(t.rule)[i])
  }

  function Yield(t: Tree): seq<Token>
    decreases t
  {
    match t
    case Leaf(token) => [token]
    case Node(_, kids) => YieldAll(kids)
  }

  function YieldAll(ts: seq<Tree>): seq<Token>
    decreases ts
  {
    if ts == [] then [] else YieldAll(ts[..|ts| - 1]) + Yield(ts[|ts| - 1])
  }

  // The grammar derives `w`.
  ghost predicate Derives(w: seq<Token>) {
    exists t :: IsTree(t) && Symbol(t) == ROOT && Yield(t) == w
  }

  lemma {:induction false} YieldConcat(a: seq<Tree>, b: seq<Tree>)
    ensures YieldAll(a + b) == YieldAll(a) + YieldAll(b)
    decreases |b|
  {
    if b == [] {
      assert a + b == a;
    } else {
      assert (a + b)[..|a + b| - 1] == a + b[..|b| - 1];
      YieldConcat(a, b[..|b| - 1]);
    }
  }

  datatype Field =
    Host | User | Pass | CertificatePassphrase | Preconnect | Postconnect | QualifyDomain | Helo
    | ForceReversePath | ForceSender

  datatype StartTls = Disabled | Enabled | Required

  datatype Identity = Identity(address: Option<string>, starttls: StartTls, settings: map<Field, string>)

  const BlankIdentity := Identity(None, Disabled, map[])

  // The identities in order of creation, `current` the newest; `chosen` is the number of the
  // default identity, if one is set.
  datatype Env = Env(past: seq<Identity>, current: Identity, chosen: Option<nat>, mda: Option<string>) {
    function Choose(): Env { this.(chosen := Some(|past|)) }

    // SET_DEFAULT_IDENTITY
    function ChooseIfNone(): Env { if chosen.None? then Choose() else this }

    function Set(f: Field, v: string): Env {
      this.(current := current.(settings := current.settings[f := v])).ChooseIfNone()
    }

    function SetTls(level: StartTls): Env {
      this.(current := current.(starttls := level)).ChooseIfNone()
    }

    function Open(address: string): Env {
      this.(past := past + [current], current := BlankIdentity.(address := Some(address)))
    }
  }

  const StartEnv := Env([], BlankIdentity, None, None)

  // The semantic action of a rule; `v` is the value on top of the stack.
  function Act(n: int, v: string, env: Env): Env {
    match n
    case 11 => env.Open(v)
    case 14 => env.Set(Host, v)
    case 15 => env.Set(User, v)
    case 16 => env.Set(Pass, v)
    case 17 => env.SetTls(Disabled)
    case 18 => env.SetTls(Enabled)
    case 19 => env.SetTls(Required)
    case 20 => env.Set(CertificatePassphrase, v)
    case 21 => env.Set(Preconnect, v)
    case 22 => env.Set(Postconnect, v)
    case 23 => env.Set(QualifyDomain, v)
    case 24 => env.Set(Helo, v)
    case 25 => env.Set(ForceReversePath, v)
    case 26 => env.Set(ForceSender, v)
    case 27 => env.(mda := Some(v))
    case 28 => env.Choose()
    case _ => env
  }

  // The value of a symbol on the value stack: a token's text.
  function Value(t: Tree): string {
    if t.Leaf? then t.token.sval else ""
  }

  function TopValue(ts: seq<Tree>): string {
    if ts == [] then "" else Value(ts[|ts| - 1])
  }

  // The actions of a tree's nodes, children first.
  function Eval(t: Tree, env: Env): Env
    decreases t
  {
    match t
    case Leaf(_) => env
    case Node(rule, kids) => Act(rule, TopValue(kids), EvalAll(kids, env))
  }

  function EvalAll(ts: seq<Tree>, env: Env): Env
    decreases ts
  {
    if ts == [] then env else Eval(ts[|ts| - 1], EvalAll(ts[..|ts| - 1], env))
  }

  lemma {:induction false} EvalConcat(a: seq<Tree>, b: seq<Tree>, env: Env)
    ensures EvalAll(a + b, env) == EvalAll(b, EvalAll(a, env))
    decreases |b|
  {
    if b == [] {
      assert a + b == a;
    } else {
      assert (a + b)[..|a + b| - 1] == a + b[..|b| - 1];
      EvalConcat(a, b[..|b| - 1], env);
    }
  }

  // ---- A direct reading of the token sequence, without rules or stacks ----

  function SkipMap(w: seq<Token>): seq<Token> {
    if w != [] && w[0].kind == MAP then w[1..] else w
  }

  // One setting: `key` is its last keyword, `v` its value.
  function Assign(key: Kind, v: Token, env: Env): Env {
    match key
    case 3 => env.Open(v.sval)
    case 5 => env.Set(Host, v.sval)
    case 6 => env.Set(User, v.sval)
    case 7 => env.Set(Pass, v.sval)
    case 8 => env.SetTls(match v.kind case 19 => Disabled case 20 => Enabled case _ => Required)
    case 9 => env.Set(CertificatePassphrase, v.sval)
    case 10 => env.Set(Preconnect, v.sval)
    case 11 => env.Set(Postconnect, v.sval)
    case 12 => env.(mda := Some(v.sval))
    case 13 => env.Set(QualifyDomain, v.sval)
    case 14 => env.Set(Helo, v.sval)
    case 16 => env.Set(ForceSender, v.sval)
    case 17 => env.Set(ForceReversePath, v.sval)
    case _ => env
  }

  function Interpret(w: seq<Token>, env: Env): Env
    decreases |w|
  {
    if w == [] then env
    else if w[0].kind == DEFAULT then Interpret(w[1..], env.Choose())
    else
      var n := if w[0].kind == FORCE then 2 else 1;
      if |w| < n then env
      else
        var rest := SkipMap(w[n..]);
        if rest == [] then env else Interpret(rest[1..], Assign(w[n - 1].kind, rest[0], env))
  }

  // Nodes that end in a map sign and a value.
  predicate Valued(n: int) { n == 11 || 14 <= n <= 27 }

  lemma {:induction false} LeafShape(t: Tree, env: Env)
    requires IsTree(t) && 0 < Symbol(t) < 24
    ensures t.Leaf? && Yield(t) == [t.token] && Eval(t, env) == env
  {
  }

  lemma {:induction false} NoKids(env: Env)
    ensures YieldAll([]) == [] && EvalAll([], env) == env
  {
  }

  lemma {:induction false} AddKid(ts: seq<Tree>, t: Tree, env: Env)
    ensures YieldAll(ts + [t]) == YieldAll(ts) + Yield(t)
    ensures EvalAll(ts + [t], env) == Eval(t, EvalAll(ts, env))
  {
    assert (ts + [t])[..|ts|] == ts;
  }

  lemma {:induction false} OneKid(t: Tree, env: Env)
    ensures YieldAll([t]) == Yield(t) && EvalAll([t], env) == Eval(t, env)
  {
    hide Yield, Eval, YieldAll, EvalAll;
    assert [] + [t] == [t];
    NoKids(env);
    AddKid([], t, env);
  }

  lemma {:induction false} TwoKids(t: Tree, u: Tree, env: Env)
    ensures YieldAll([t, u]) == Yield(t) + Yield(u) && EvalAll([t, u], env) == Eval(u, Eval(t, env))
  {
    hide Yield, Eval, YieldAll, EvalAll;
    assert [t] + [u] == [t, u];
    OneKid(t, env);
    AddKid([t], u, env);
  }

  lemma {:induction false} ThreeKids(t: Tree, u: Tree, v: Tree, env: Env)
    ensures YieldAll([t, u, v]) == Yield(t) + Yield(u) + Yield(v)
    ensures EvalAll([t, u, v], env) == Eval(v, Eval(u, Eval(t, env)))
  {
    hide Yield, Eval, YieldAll, EvalAll;
    assert [t, u] + [v] == [t, u, v];
    TwoKids(t, u, env);
    AddKid([t, u], v, env);
  }

  lemma {:induction false} MapShape(t: Tree, env: Env)
    requires IsTree(t) && Symbol(t) == 27
    ensures Eval(t, env) == env
    ensures Yield(t) == [] || (|Yield(t)| == 1 && Yield(t)[0].kind == MAP)
  {
    assert t.rule == 9 || t.rule == 10;
    if t.rule == 9 {
      NoKids(env);
    } else {
      var k := t.kids[0];
      assert t.kids == [k] && Symbol(k) == Rhs(10)[0] == 18;
      LeafShape(k, env);
      OneKid(k, env);
    }
  }

  lemma {:induction false} ValuedShape(t: Tree, env: Env) returns (head: seq<Token>, sign: seq<Token>, v: Token)
    requires IsTree(t) && t.Node? && Valued(t.rule)
    ensures Yield(t) == head + sign + [v]
    ensures |head| == |Rhs(t.rule)| - 2 && forall i :: 0 <= i < |head| ==> head[i].kind == Rhs(t.rule)[i]
    ensures sign == [] || (|sign| == 1 && sign[0].kind == MAP)
    ensures v.kind == Rhs(t.rule)[|Rhs(t.rule)| - 1]
    ensures Eval(t, env) == Act(t.rule, v.sval, env)
  {
    hide Act, YieldAll, EvalAll, IsTree, Lhs, Rhs, Yield, Eval;
    var kids := t.kids;
    var n := |kids|;
    RuleEnds(t.rule);
    KidsOf(t);
    MapShape(kids[n - 2], env);
    LeafShape(kids[n - 1], env);
    LeafShape(kids[0], env);
    sign, v := Yield(kids[n - 2]), kids[n - 1].token;
    NodeShape(t, env);
    if n == 3 {
      head := [kids[0].token];
      assert kids == [kids[0], kids[1], kids[2]];
      ThreeKids(kids[0], kids[1], kids[2], env);
    } else {
      LeafShape(kids[1], env);
      head := [kids[0].token, kids[1].token];
      assert Yield(kids[0]) + Yield(kids[1]) == head;
      ThreeKids(kids[0], kids[1], kids[2], env);
      assert kids == [kids[0], kids[1], kids[2]] + [kids[3]];
      AddKid([kids[0], kids[1], kids[2]], kids[3], env);
    }
  }

  lemma {:induction false} NodeShape(t: Tree, env: Env)
    requires t.Node?
    ensures Yield(t) == YieldAll(t.kids) && Eval(t, env) == Act(t.rule, TopValue(t.kids), EvalAll(t.kids, env))
  {
  }

  lemma {:induction false} RuleEnds(n: int)
    requires Valued(n)
    ensures var rhs := Rhs(n);
            && (|rhs| == 3 || |rhs| == 4)
            && 0 < rhs[0] < 24 && rhs[|rhs| - 2] == 27 && 0 < rhs[|rhs| - 1] < 24
            && (|rhs| == 4 ==> 0 < rhs[1] < 24)
  {
  }

  lemma {:induction false} KidsOf(t: Tree)
    requires IsTree(t) && t.Node?
    ensures 1 <= t.rule <= 28 && |t.kids| == |Rhs(t.rule)|
    ensures forall i :: 0 <= i < |t.kids| ==> IsTree(t.kids[i]) && Symbol(t.kids[i]) == Rhs(t.rule)[i]
  {
  }

  // Symbols that stand for whole statements.
  predicate Statements(a: int) { a in {25, 26, 28, 29, 30} }

  ghost predicate AllStatements(ts: seq<Tree>) {
    forall i :: 0 <= i < |ts| ==> IsTree(ts[i]) && Statements(Symbol(ts[i]))
  }

  lemma {:induction false} ListKids(t: Tree, env: Env)
    requires IsTree(t) && t.Node? && Statements(Symbol(t)) && !Valued(t.rule) && t.rule != 28
    ensures AllStatements(t.kids) && Eval(t, env) == EvalAll(t.kids, env)
  {
    hide EvalAll;
    assert 2 <= t.rule <= 8 || t.rule == 12 || t.rule == 13;
    forall i | 0 <= i < |t.kids| ensures IsTree(t.kids[i]) && Statements(Symbol(t.kids[i])) {
      assert Symbol(t.kids[i]) == Rhs(t.rule)[i];
    }
  }

  lemma {:induction false} DefaultShape(t: Tree, env: Env)
    requires IsTree(t) && t.Node? && t.rule == 28
    ensures |Yield(t)| == 1 && Yield(t)[0].kind == DEFAULT && Eval(t, env) == env.Choose()
  {
    var k := t.kids[0];
    assert t.kids == [k] && Symbol(k) == Rhs(28)[0] == 4;
    LeafShape(k, env);
    OneKid(k, env);
  }

  lemma {:induction false} RuleKey(n: int, head: seq<Token>, v: Token, env: Env)
    requires Valued(n) && |head| == |Rhs(n)| - 2
    requires forall i :: 0 <= i < |head| ==> head[i].kind == Rhs(n)[i]
    requires v.kind == Rhs(n)[|Rhs(n)| - 1]
    ensures |head| == if head[0].kind == FORCE then 2 else 1
    ensures head[0].kind != DEFAULT && v.kind != MAP
    ensures Act(n, v.sval, env) == Assign(head[|head| - 1].kind, v, env)
  {
    assert head[0].kind == Rhs(n)[0];
    assert head[|head| - 1].kind == Rhs(n)[|head| - 1];
  }

  predicate MapSign(sign: seq<Token>) { sign == [] || (|sign| == 1 && sign[0].kind == MAP) }

  lemma {:induction false} SignSkipped(sign: seq<Token>, v: Token, rest: seq<Token>)
    requires MapSign(sign) && v.kind != MAP
    ensures SkipMap(sign + ([v] + rest)) == [v] + rest
  {
    var w := sign + ([v] + rest);
    if |sign| == 1 {
      assert w[0] == sign[0] && w[1..] == [v] + rest;
    } else {
      assert w == [v] + rest;
    }
  }

  // The interpreter on one setting.
  lemma {:induction false} InterpretSetting(head: seq<Token>, sign: seq<Token>, v: Token, rest: seq<Token>, env: Env)
    requires |head| > 0 && |head| == (if head[0].kind == FORCE then 2 else 1) && head[0].kind != DEFAULT
    requires MapSign(sign) && v.kind != MAP
    ensures Interpret(head + (sign + ([v] + rest)), env) == Interpret(rest, Assign(head[|head| - 1].kind, v, env))
  {
    hide Assign, SkipMap, MapSign;
    var n, tail := |head|, sign + ([v] + rest);
    var w := head + tail;
    assert w[0] == head[0] && w[n - 1] == head[n - 1] && w[n..] == tail;
    SignSkipped(sign, v, rest);
    assert ([v] + rest)[0] == v && ([v] + rest)[1..] == rest;
  }

  lemma {:induction false} ValuedMeans(t: Tree, rest: seq<Token>, env: Env)
    requires IsTree(t) && t.Node? && Valued(t.rule)
    ensures Interpret(Yield(t) + rest, env) == Interpret(rest, Eval(t, env))
  {
    hide Act, Assign, Eval, Yield, Rhs, IsTree, Interpret;
    var head, sign, v := ValuedShape(t, env);
    RuleKey(t.rule, head, v, env);
    assert Yield(t) + rest == head + (sign + ([v] + rest));
    InterpretSetting(head, sign, v, rest, env);
  }

  // Evaluating a tree is reading its tokens from left to right.
  lemma {:induction false} TreeMeansTokens(t: Tree, rest: seq<Token>, env: Env)
    requires IsTree(t) && Statements(Symbol(t))
    ensures Interpret(Yield(t) + rest, env) == Interpret(rest, Eval(t, env))
    decreases t
  {
    hide Interpret, Act, Eval, IsTree, Rhs;
    if Valued(t.rule) {
      ValuedMeans(t, rest, env);
    } else if t.rule == 28 {
      DefaultMeans(t, rest, env);
    } else {
      ListKids(t, env);
      TreesMeanTokens(t.kids, rest, env);
    }
  }

  lemma {:induction false} DefaultMeans(t: Tree, rest: seq<Token>, env: Env)
    requires IsTree(t) && t.Node? && t.rule == 28
    ensures Interpret(Yield(t) + rest, env) == Interpret(rest, Eval(t, env))
  {
    DefaultShape(t, env);
    assert (Yield(t) + rest)[1..] == rest;
  }

  lemma {:induction false} TreesMeanTokens(ts: seq<Tree>, rest: seq<Token>, env: Env)
    requires AllStatements(ts)
    ensures Interpret(YieldAll(ts) + rest, env) == Interpret(rest, EvalAll(ts, env))
    decreases ts
  {
    hide Interpret, Eval, Yield, IsTree, Symbol;
    if ts == [] {
      assert YieldAll(ts) + rest == rest;
    } else {
      var k := |ts| - 1;
      assert YieldAll(ts) + rest == YieldAll(ts[..k]) + (Yield(ts[k]) + rest);
      TreesMeanTokens(ts[..k], Yield(ts[k]) + rest, env);
      TreeMeansTokens(ts[k], rest, EvalAll(ts[..k], env));
    }
  }

  // ---- The default identity ----

  // Keywords whose statement names the current identity as the default when none is set.
  predicate SetsDefault(k: int) { 5 <= k <= 15 && k != MDA }

  // How many identities have been opened, and which one is the default.
  datatype Marks = Marks(count: nat, chosen: Option<nat>) {
    function Pass(k: int): Marks {
      if k == IDENTITY then this.(count := count + 1)
      else if k == DEFAULT || (SetsDefault(k) && chosen.None?) then this.(chosen := Some(count))
      else this
    }
  }

  function MarksOf(env: Env): Marks { Marks(|env.past|, env.chosen) }

  function PassAll(w: seq<Token>, m: Marks): Marks {
    if w == [] then m else PassAll(w[..|w| - 1], m).Pass(w[|w| - 1].kind)
  }

  lemma {:induction false} PassConcat(a: seq<Token>, b: seq<Token>, m: Marks)
    ensures PassAll(a + b, m) == PassAll(b, PassAll(a, m))
    decreases |b|
  {
    if b == [] {
      assert a + b == a;
    } else {
      assert (a + b)[..|a + b| - 1] == a + b[..|b| - 1];
      PassConcat(a, b[..|b| - 1], m);
    }
  }

  predicate Idle(w: seq<Token>) { forall i :: 0 <= i < |w| ==> w[i].kind > 15 }

  lemma {:induction false} PassIdle(w: seq<Token>, m: Marks)
    requires Idle(w)
    ensures PassAll(w, m) == m
    decreases |w|
  {
    if w != [] {
      PassIdle(w[..|w| - 1], m);
    }
  }

  lemma {:induction false} ActMarks(n: int, k: int, v: string, env: Env)
    requires Valued(n) && k == Rhs(n)[0]
    ensures MarksOf(Act(n, v, env)) == MarksOf(env).Pass(k)
  {
  }

  lemma {:induction false} HeadMarks(n: int, head: seq<Token>, v: Token)
    requires Valued(n) && |head| == |Rhs(n)| - 2
    requires forall i :: 0 <= i < |head| ==> head[i].kind == Rhs(n)[i]
    requires v.kind == Rhs(n)[|Rhs(n)| - 1]
    ensures |head| > 0 && head[0].kind == Rhs(n)[0] && v.kind > 15
    ensures Idle(head[1..])
  {
    if |head| == 2 {
      assert head[1..] == [head[1]] && head[1].kind == Rhs(n)[1];
    }
  }

  lemma {:induction false} ValuedMarks(t: Tree, env: Env)
    requires IsTree(t) && t.Node? && Valued(t.rule)
    ensures MarksOf(Eval(t, env)) == PassAll(Yield(t), MarksOf(env))
  {
    hide Act, Assign, Eval, Yield, IsTree, Rhs, MarksOf;
    var head, sign, v := ValuedShape(t, env);
    HeadMarks(t.rule, head, v);
    var w, m := Yield(t), MarksOf(env);
    var idle := head[1..] + sign + [v];
    assert w == [head[0]] + idle;
    PassConcat([head[0]], idle, m);
    PassIdle(idle, PassAll([head[0]], m));
    assert [head[0]][..0] == [];
    ActMarks(t.rule, head[0].kind, v.sval, env);
  }

  lemma {:induction false} DefaultMarks(t: Tree, env: Env)
    requires IsTree(t) && t.Node? && t.rule == 28
    ensures MarksOf(Eval(t, env)) == PassAll(Yield(t), MarksOf(env))
  {
    DefaultShape(t, env);
    assert Yield(t)[..0] == [];
  }

  lemma {:induction false} TreeMarks(t: Tree, env: Env)
    requires IsTree(t) && Statements(Symbol(t))
    ensures MarksOf(Eval(t, env)) == PassAll(Yield(t), MarksOf(env))
    decreases t
  {
    hide PassAll, MarksOf, Act, Eval, IsTree, Rhs;
    if Valued(t.rule) {
      ValuedMarks(t, env);
    } else if t.rule == 28 {
      DefaultMarks(t, env);
    } else {
      ListKids(t, env);
      TreesMarks(t.kids, env);
    }
  }

  lemma {:induction false} TreesMarks(ts: seq<Tree>, env: Env)
    requires AllStatements(ts)
    ensures MarksOf(EvalAll(ts, env)) == PassAll(YieldAll(ts), MarksOf(env))
    decreases ts
  {
    hide Eval, Yield, IsTree, Symbol;
    if ts != [] {
      var k := |ts| - 1;
      TreesMarks(ts[..k], env);
      TreeMarks(ts[k], EvalAll(ts[..k], env));
      PassConcat(YieldAll(ts[..k]), Yield(ts[k]), MarksOf(env));
    }
  }

  function Opened(w: seq<Token>): nat {
    if w == [] then 0 else Opened(w[..|w| - 1]) + if w[|w| - 1].kind == IDENTITY then 1 else 0
  }

  // `w[i]` is the last `default` keyword.
  predicate LastDefault(w: seq<Token>, i: nat) {
    i < |w| && w[i].kind == DEFAULT && forall j :: i < j < |w| ==> w[j].kind != DEFAULT
  }

  predicate NoDefault(w: seq<Token>) { forall j :: 0 <= j < |w| ==> w[j].kind != DEFAULT }

  // `w[i]` is the first keyword of a setting other than mda.
  predicate FirstSetting(w: seq<Token>, i: nat) {
    i < |w| && SetsDefault(w[i].kind) && forall j :: 0 <= j < i ==> !SetsDefault(w[j].kind)
  }

  predicate NoSetting(w: seq<Token>) { forall j :: 0 <= j < |w| ==> !SetsDefault(w[j].kind) }

  const Unmarked := Marks(0, None)

  lemma {:induction false} PassCounts(w: seq<Token>)
    ensures PassAll(w, Unmarked).count == Opened(w)
    decreases |w|
  {
    if w != [] { PassCounts(w[..|w| - 1]); }
  }

  lemma {:induction false} LastDefaultWins(w: seq<Token>, i: nat)
    requires LastDefault(w, i)
    ensures PassAll(w, Unmarked).chosen == Some(Opened(w[..i]))
    decreases |w|
  {
    var before := w[..|w| - 1];
    if i == |w| - 1 {
      PassCounts(before);
    } else {
      assert before[..i] == w[..i];
      LastDefaultWins(before, i);
    }
  }

  lemma {:induction false} NothingChosen(w: seq<Token>)
    requires NoDefault(w) && NoSetting(w)
    ensures PassAll(w, Unmarked).chosen == None
    decreases |w|
  {
    if w != [] { NothingChosen(w[..|w| - 1]); }
  }

  lemma {:induction false} FirstSettingWins(w: seq<Token>, i: nat)
    requires NoDefault(w) && FirstSetting(w, i)
    ensures PassAll(w, Unmarked).chosen == Some(Opened(w[..i]))
    decreases |w|
  {
    var before := w[..|w| - 1];
    if i == |w| - 1 {
      PassCounts(before);
      NothingChosen(before);
    } else {
      assert before[..i] == w[..i];
      FirstSettingWins(before, i);
    }
  }

  // The end of rcfile_parse.
  function Finish(env: Env, encryption: bool): Env {
    (if encryption then env.(current := env.current.(starttls := Required)) else env).ChooseIfNone()
  }

  // The identity current at the last `default`, else at the first setting other than mda, else
  // the last identity.
  lemma {:induction false} DefaultIdentity(t: Tree, encryption: bool, i: nat)
    requires IsTree(t) && Symbol(t) == ROOT
    ensures var w, env := Yield(t), Finish(Eval(t, StartEnv), encryption);
            && |env.past| == Opened(w)
            && (LastDefault(w, i) ==> env.chosen == Some(Opened(w[..i])))
            && (NoDefault(w) && FirstSetting(w, i) ==> env.chosen == Some(Opened(w[..i])))
            && (NoDefault(w) && NoSetting(w) ==> env.chosen == Some(Opened(w)))
  {
    hide Eval, Yield, PassAll, Opened, IsTree;
    var w := Yield(t);
    TreeMarks(t, StartEnv);
    assert MarksOf(StartEnv) == Unmarked;
    PassCounts(w);
    if LastDefault(w, i) { LastDefaultWins(w, i); }
    if NoDefault(w) && FirstSetting(w, i) { FirstSettingWins(w, i); }
    if NoDefault(w) && NoSetting(w) { NothingChosen(w); }
  }
}
