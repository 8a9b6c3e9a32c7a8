/** What an rcfile says, read off its tokens: for every identity the last value given for each of its
    settings, and that the semantic actions store exactly that. */
module RcSettings {
  import opened Options
  import opened RcGrammar

  const STARTTLS := 8

  /** The keyword of a field; the two forced ones stand behind `force`. */
  function KeyOf(f: Field): int {
    match f
    case Host => 5
    case User => 6
    case Pass => 7
    case CertificatePassphrase => 9
    case Preconnect => 10
    case Postconnect => 11
    case QualifyDomain => 13
    case Helo => 14
    case ForceSender => 16
    case ForceReversePath => 17
  }

  /** Keywords with a value. */
  predicate Key(kind: int) { kind == IDENTITY || (5 <= kind <= 14) || kind == 16 || kind == 17 }

  /** `w[i]` is a keyword of the given kind in the part of identity k: k `identity` keywords are before it. */
  ghost predicate InPart(w: seq<Token>, kind: int, k: nat, i: nat) {
    i < |w| && w[i].kind == kind && Opened(w[..i]) == k
  }

  /** The last such keyword. */
  ghost predicate LastIn(w: seq<Token>, kind: int, k: nat, i: nat) {
    InPart(w, kind, k, i) && forall j :: i < j < |w| ==> !InPart(w, kind, k, j)
  }

  ghost predicate NoneIn(w: seq<Token>, kind: int, k: nat) { forall j :: 0 <= j < |w| ==> !InPart(w, kind, k, j) }

  /** The value of the keyword at i, behind an optional map sign. */
  function ValuePos(w: seq<Token>, i: nat): nat {
    if i + 1 < |w| && w[i + 1].kind == MAP then i + 2 else i + 1
  }

  predicate HasValue(w: seq<Token>, i: nat) { ValuePos(w, i) < |w| }

  function Level(kind: int): StartTls {
    if kind == 19 then Disabled else if kind == 20 then Enabled else Required
  }

  function IdentityOf(env: Env, k: nat): Identity {
    if k < |env.past| then env.past[k] else env.current
  }

  // ----- one setting at a time

  /** The setting is the text of the value at i. */
  ghost predicate TextAt(w: seq<Token>, i: nat, setting: Option<string>) {
    HasValue(w, i) && setting == Some(w[ValuePos(w, i)].sval)
  }

  /** The setting is the last value of its keyword in a part, and unset without one. */
  ghost predicate IsLast(w: seq<Token>, kind: int, k: nat, setting: Option<string>) {
    && (NoneIn(w, kind, k) ==> setting == None)
    && forall i :: LastIn(w, kind, k, i) ==> TextAt(w, i, setting)
  }

  ghost predicate IsLevel(w: seq<Token>, k: nat, level: StartTls) {
    && (NoneIn(w, STARTTLS, k) ==> level == Disabled)
    && forall i :: LastIn(w, STARTTLS, k, i) ==> HasValue(w, i) && level == Level(w[ValuePos(w, i)].kind)
  }

  function Setting(id: Identity, f: Field): Option<string> {
    if f in id.settings then Some(id.settings[f]) else None
  }

  /** The identity holds the texts its part of the file gives; the first one has no address. */
  ghost predicate TextsHold(w: seq<Token>, k: nat, id: Identity) {
    && (forall f :: IsLast(w, KeyOf(f), k, Setting(id, f)))
    && (if k == 0 then id.address == None else IsLast(w, IDENTITY, k - 1, id.address))
  }

  ghost predicate IdentityHolds(w: seq<Token>, k: nat, id: Identity) {
    TextsHold(w, k, id) && IsLevel(w, k, id.starttls)
  }

  /** The mail delivery agent belongs to the whole file: the last value of its keyword. */
  ghost predicate MdaHolds(w: seq<Token>, mda: Option<string>) {
    && ((forall i :: 0 <= i < |w| ==> w[i].kind != MDA) ==> mda == None)
    && forall i :: 0 <= i < |w| && w[i].kind == MDA && (forall j :: i < j < |w| ==> w[j].kind != MDA) ==>
         TextAt(w, i, mda)
  }

  ghost predicate Holds(w: seq<Token>, env: Env) {
    && |env.past| == Opened(w) && MdaHolds(w, env.mda)
    && forall k :: 0 <= k <= |env.past| ==> IdentityHolds(w, k, IdentityOf(env, k))
  }

  /** The same at the end of rcfile_parse, where the newest identity may be told to encrypt. */
  ghost predicate FileHolds(w: seq<Token>, env: Env, encryption: bool) {
    && |env.past| == Opened(w) && MdaHolds(w, env.mda)
    && (forall k :: 0 <= k < |env.past| ==> IdentityHolds(w, k, env.past[k]))
    && TextsHold(w, |env.past|, env.current)
    && (if encryption then env.current.starttls == Required else IsLevel(w, |env.past|, env.current.starttls))
  }

  lemma {:induction false} FinishHolds(w: seq<Token>, env: Env, encryption: bool)
    requires Holds(w, env)
    ensures FileHolds(w, Finish(env, encryption), encryption)
  {
    hide Opened, MdaHolds, IsLevel, TextsHold;
    assert IdentityHolds(w, |env.past|, IdentityOf(env, |env.past|));
    assert forall k :: 0 <= k < |env.past| ==> IdentityOf(env, k) == env.past[k];
    SameTexts(w, |env.past|, env.current, Required);
  }

  lemma {:induction false} SameTexts(w: seq<Token>, k: nat, id: Identity, level: StartTls)
    requires TextsHold(w, k, id)
    ensures TextsHold(w, k, id.(starttls := level))
  {
    hide IsLast;
    assert forall f :: Setting(id.(starttls := level), f) == Setting(id, f);
  }

  /** A part with such a keyword has a last one. */
  lemma {:induction false} OneOrNone(w: seq<Token>, kind: int, k: nat, n: nat)
    requires n <= |w| && forall j: nat :: n <= j < |w| ==> !InPart(w, kind, k, j)
    ensures NoneIn(w, kind, k) || exists i :: LastIn(w, kind, k, i)
    decreases n
  {
    hide InPart;
    if n > 0 {
      if InPart(w, kind, k, n - 1) {
        assert LastIn(w, kind, k, n - 1);
      } else {
        OneOrNone(w, kind, k, n - 1);
      }
    }
  }

  // ----- one statement

  /** `more` is a statement behind `w` whose keyword, at p, has the value v. */
  ghost predicate Statement(w: seq<Token>, more: seq<Token>, p: nat, v: Token) {
    && |w| <= p && p + 1 < |w| + |more|
    && Key(more[p - |w|].kind)
    && (forall i :: 0 <= i < |more| && i != p - |w| ==> !Key(more[i].kind))
    && (forall i :: 0 <= i < p - |w| ==> more[i].kind != IDENTITY)
    && HasValue(w + more, p) && (w + more)[ValuePos(w + more, p)] == v
  }

  lemma {:induction false} OpenedConcat(a: seq<Token>, b: seq<Token>)
    ensures Opened(a + b) == Opened(a) + Opened(b)
    decreases |b|
  {
    if b == [] {
      assert a + b == a;
    } else {
      assert (a + b)[..|a + b| - 1] == a + b[..|b| - 1];
      OpenedConcat(a, b[..|b| - 1]);
    }
  }

  lemma {:induction false} OpenedNone(w: seq<Token>)
    requires forall i :: 0 <= i < |w| ==> w[i].kind != IDENTITY
    ensures Opened(w) == 0
    decreases |w|
  {
    if w != [] { OpenedNone(w[..|w| - 1]); }
  }

  /** Where the keywords of a part are, after one more statement. */
  lemma {:induction false} PartGrows(w: seq<Token>, more: seq<Token>, p: nat, v: Token, kind: int, k: nat, i: nat)
    requires Statement(w, more, p, v) && Key(kind)
    ensures InPart(w + more, kind, k, i) <==>
            InPart(w, kind, k, i) || (i == p && more[p - |w|].kind == kind && k == Opened(w))
  {
    hide Opened, HasValue, ValuePos;
    var all := w + more;
    if i < |w| {
      assert all[..i] == w[..i];
    } else if i == p {
      assert all[..p] == w + more[..p - |w|];
      OpenedConcat(w, more[..p - |w|]);
      OpenedNone(more[..p - |w|]);
    }
  }

  lemma {:induction false} TextStays(w: seq<Token>, more: seq<Token>, i: nat, setting: Option<string>)
    requires TextAt(w, i, setting)
    ensures TextAt(w + more, i, setting)
  {
  }

  /** A setting that the statement does not touch. */
  lemma {:induction false} OtherStays(w: seq<Token>, more: seq<Token>, p: nat, v: Token, kind: int, k: nat,
                                      setting: Option<string>)
    requires Statement(w, more, p, v) && Key(kind) && IsLast(w, kind, k, setting)
    requires more[p - |w|].kind != kind || k != Opened(w)
    ensures IsLast(w + more, kind, k, setting)
  {
    hide InPart, Statement, Key, TextAt, Opened;
    var all := w + more;
    SamePart(w, more, p, v, kind, k);
    if NoneIn(all, kind, k) { assert NoneIn(w, kind, k); }
    forall i | LastIn(all, kind, k, i) ensures TextAt(all, i, setting) {
      assert LastIn(w, kind, k, i);
      TextStays(w, more, i, setting);
    }
  }

  lemma {:induction false} SamePart(w: seq<Token>, more: seq<Token>, p: nat, v: Token, kind: int, k: nat)
    requires Statement(w, more, p, v) && Key(kind)
    requires more[p - |w|].kind != kind || k != Opened(w)
    ensures forall i: nat :: InPart(w + more, kind, k, i) <==> InPart(w, kind, k, i)
    ensures forall i: nat :: InPart(w, kind, k, i) ==> i < |w|
  {
    hide Statement, Key, Opened;
    forall i: nat ensures InPart(w + more, kind, k, i) <==> InPart(w, kind, k, i) {
      PartGrows(w, more, p, v, kind, k, i);
    }
  }

  /** The setting the statement gives. */
  lemma {:induction false} KeySet(w: seq<Token>, more: seq<Token>, p: nat, v: Token)
    requires Statement(w, more, p, v)
    ensures IsLast(w + more, more[p - |w|].kind, Opened(w), Some(v.sval))
  {
    hide Opened, Key;
    var all, kind, k := w + more, more[p - |w|].kind, Opened(w);
    KeyIsLast(w, more, p, v, kind, k);
    assert !NoneIn(all, kind, k);
  }

  lemma {:induction false} KeyIsLast(w: seq<Token>, more: seq<Token>, p: nat, v: Token, kind: int, k: nat)
    requires Statement(w, more, p, v) && kind == more[p - |w|].kind && k == Opened(w)
    ensures InPart(w + more, kind, k, p)
    ensures forall i: nat :: LastIn(w + more, kind, k, i) ==> i == p
  {
    hide Opened, HasValue, ValuePos, InPart;
    var all := w + more;
    forall i: nat ensures InPart(all, kind, k, i) ==> i == p || i < p {
      PartGrows(w, more, p, v, kind, k, i);
      PartInside(w, kind, k, i);
    }
    PartGrows(w, more, p, v, kind, k, p);
  }

  lemma {:induction false} PartInside(w: seq<Token>, kind: int, k: nat, i: nat)
    ensures InPart(w, kind, k, i) ==> i < |w|
  {
  }

  /** Nothing is in a part that has not begun. */
  lemma {:induction false} NotBegun(w: seq<Token>, kind: int, k: nat)
    requires k > Opened(w)
    ensures NoneIn(w, kind, k) && forall i: nat :: !InPart(w, kind, k, i)
  {
    forall i: nat ensures !InPart(w, kind, k, i) {
      if InPart(w, kind, k, i) {
        assert w == w[..i] + w[i..];
        OpenedConcat(w[..i], w[i..]);
      }
    }
  }

  lemma {:induction false} FreshIdentity(w: seq<Token>, k: nat, address: Option<string>)
    requires k == Opened(w) > 0 && NoneInPart(w, k) && IsLast(w, IDENTITY, k - 1, address)
    ensures IdentityHolds(w, k, BlankIdentity.(address := address))
  {
    hide Opened, InPart, TextAt;
    var id := BlankIdentity.(address := address);
    forall f ensures IsLast(w, KeyOf(f), k, Setting(id, f)) {
      KeysAreKeys(f);
    }
  }

  /** No keyword with a value in part k, `identity` aside. */
  ghost predicate NoneInPart(w: seq<Token>, k: nat) {
    forall kind: int, i: nat :: Key(kind) && kind != IDENTITY ==> !InPart(w, kind, k, i)
  }

  lemma {:induction false} KeysAreKeys(f: Field)
    ensures Key(KeyOf(f)) && KeyOf(f) !in {IDENTITY, STARTTLS, MDA}
  {
  }

  lemma {:induction false} LevelStays(w: seq<Token>, more: seq<Token>, p: nat, v: Token, k: nat, level: StartTls)
    requires Statement(w, more, p, v) && IsLevel(w, k, level)
    requires more[p - |w|].kind != STARTTLS || k != Opened(w)
    ensures IsLevel(w + more, k, level)
  {
    hide InPart, Statement, Opened;
    var all := w + more;
    SamePart(w, more, p, v, STARTTLS, k);
    if NoneIn(all, STARTTLS, k) { assert NoneIn(w, STARTTLS, k); }
    forall i: nat | LastIn(all, STARTTLS, k, i)
      ensures HasValue(all, i) && level == Level(all[ValuePos(all, i)].kind)
    {
      assert LastIn(w, STARTTLS, k, i);
    }
  }

  lemma {:induction false} LevelSet(w: seq<Token>, more: seq<Token>, p: nat, v: Token)
    requires Statement(w, more, p, v) && more[p - |w|].kind == STARTTLS
    ensures IsLevel(w + more, Opened(w), Level(v.kind))
  {
    hide Opened, Key;
    KeyIsLast(w, more, p, v, STARTTLS, Opened(w));
    assert !NoneIn(w + more, STARTTLS, Opened(w));
  }

  /** An identity the statement does not change. */
  lemma {:induction false} IdentityStays(w: seq<Token>, more: seq<Token>, p: nat, v: Token, k: nat, id: Identity)
    requires Statement(w, more, p, v) && IdentityHolds(w, k, id) && k <= Opened(w)
    requires k < Opened(w) || more[p - |w|].kind in {IDENTITY, MDA}
    ensures IdentityHolds(w + more, k, id)
  {
    hide IsLast, IsLevel, Statement, Opened;
    forall f ensures IsLast(w + more, KeyOf(f), k, Setting(id, f)) {
      KeysAreKeys(f);
      OtherStays(w, more, p, v, KeyOf(f), k, Setting(id, f));
    }
    LevelStays(w, more, p, v, k, id.starttls);
    if k > 0 { OtherStays(w, more, p, v, IDENTITY, k - 1, id.address); }
  }

  lemma {:induction false} KeysDiffer(f: Field, g: Field)
    ensures KeyOf(f) == KeyOf(g) <==> f == g
  {
  }

  lemma {:induction false} FieldSet(w: seq<Token>, more: seq<Token>, p: nat, v: Token, id: Identity, f: Field)
    requires Statement(w, more, p, v) && IdentityHolds(w, Opened(w), id) && more[p - |w|].kind == KeyOf(f)
    ensures IdentityHolds(w + more, Opened(w), id.(settings := id.settings[f := v.sval]))
  {
    hide IsLast, IsLevel, Statement, Opened, KeyOf;
    var k, after := Opened(w), id.(settings := id.settings[f := v.sval]);
    KeysAreKeys(f);
    forall g ensures IsLast(w + more, KeyOf(g), k, Setting(after, g)) {
      KeysAreKeys(g);
      KeysDiffer(f, g);
      if g == f {
        KeySet(w, more, p, v);
      } else {
        OtherStays(w, more, p, v, KeyOf(g), k, Setting(id, g));
      }
    }
    LevelStays(w, more, p, v, k, id.starttls);
    if k > 0 { OtherStays(w, more, p, v, IDENTITY, k - 1, id.address); }
  }

  lemma {:induction false} TlsSet(w: seq<Token>, more: seq<Token>, p: nat, v: Token, id: Identity)
    requires Statement(w, more, p, v) && IdentityHolds(w, Opened(w), id) && more[p - |w|].kind == STARTTLS
    ensures IdentityHolds(w + more, Opened(w), id.(starttls := Level(v.kind)))
  {
    hide IsLast, IsLevel, Statement, Opened, KeyOf;
    var k, after := Opened(w), id.(starttls := Level(v.kind));
    forall g ensures IsLast(w + more, KeyOf(g), k, Setting(after, g)) {
      KeysAreKeys(g);
      OtherStays(w, more, p, v, KeyOf(g), k, Setting(id, g));
    }
    LevelSet(w, more, p, v);
    if k > 0 { OtherStays(w, more, p, v, IDENTITY, k - 1, id.address); }
  }

  lemma {:induction false} MdaStays(w: seq<Token>, more: seq<Token>, p: nat, v: Token, mda: Option<string>)
    requires Statement(w, more, p, v) && MdaHolds(w, mda)
    ensures MdaHolds(w + more, if more[p - |w|].kind == MDA then Some(v.sval) else mda)
  {
    hide TextAt, ValuePos;
    var all := w + more;
    if more[p - |w|].kind == MDA {
      assert all[p].kind == MDA;
      MdaText(w, more, p, v);
    } else {
      assert forall i :: |w| <= i < |all| ==> all[i].kind != MDA;
      assert forall i :: 0 <= i < |w| ==> all[i] == w[i];
      forall i | 0 <= i < |all| && all[i].kind == MDA && (forall j :: i < j < |all| ==> all[j].kind != MDA)
        ensures TextAt(all, i, mda)
      {
        assert forall j :: i < j < |w| ==> w[j].kind != MDA;
        assert TextAt(w, i, mda);
        TextStays(w, more, i, mda);
      }
    }
  }

  lemma {:induction false} MdaText(w: seq<Token>, more: seq<Token>, p: nat, v: Token)
    requires Statement(w, more, p, v)
    ensures TextAt(w + more, p, Some(v.sval))
  {
  }

  // ----- the whole file

  lemma {:induction false} KeyAssigns(f: Field, v: Token, env: Env)
    ensures 1 <= KeyOf(f) < 24 && Assign(KeyOf(f), v, env) == env.Set(f, v.sval)
  {
  }

  lemma {:induction false} KeyOfField(kind: int) returns (f: Field)
    requires Key(kind) && kind !in {IDENTITY, STARTTLS, MDA}
    ensures KeyOf(f) == kind
  {
    f := match kind
      case 5 => Host case 6 => User case 7 => Pass case 9 => CertificatePassphrase case 10 => Preconnect
      case 11 => Postconnect case 13 => QualifyDomain case 14 => Helo case 16 => ForceSender
      case _ => ForceReversePath;
  }

  lemma {:induction false} OpenedMore(w: seq<Token>, more: seq<Token>, p: nat, v: Token)
    requires Statement(w, more, p, v)
    ensures Opened(w + more) == Opened(w) + if more[p - |w|].kind == IDENTITY then 1 else 0
  {
    hide Opened, HasValue, ValuePos;
    var q := p - |w|;
    var a, b := more[..q], more[q + 1..];
    assert more == a + ([more[q]] + b);
    OpenedConcat(w, more);
    OpenedConcat(a, [more[q]] + b);
    OpenedConcat([more[q]], b);
    OpenedNone(a);
    assert forall i :: 0 <= i < |b| ==> b[i] == more[q + 1 + i];
    OpenedNone(b);
    OpenedOne(more[q]);
  }

  lemma {:induction false} OpenedOne(t: Token)
    ensures Opened([t]) == if t.kind == IDENTITY then 1 else 0
  {
    assert [t][..0] == [];
  }

  /** A new identity begins. */
  lemma {:induction false} OpenStores(w: seq<Token>, more: seq<Token>, p: nat, v: Token, env: Env)
    requires Statement(w, more, p, v) && Holds(w, env) && more[p - |w|].kind == IDENTITY
    ensures Holds(w + more, env.Open(v.sval))
  {
    hide Statement, Opened, MdaHolds, IdentityHolds;
    var all, after := w + more, env.Open(v.sval);
    OpenedMore(w, more, p, v);
    MdaStays(w, more, p, v, env.mda);
    forall k | 0 <= k <= |after.past| ensures IdentityHolds(all, k, IdentityOf(after, k)) {
      if k <= |env.past| {
        assert IdentityOf(after, k) == IdentityOf(env, k);
        IdentityStays(w, more, p, v, k, IdentityOf(env, k));
      } else {
        KeySet(w, more, p, v);
        NewPart(w, more, p, v);
        FreshIdentity(all, k, Some(v.sval));
      }
    }
  }

  lemma {:induction false} NewPart(w: seq<Token>, more: seq<Token>, p: nat, v: Token)
    requires Statement(w, more, p, v) && more[p - |w|].kind == IDENTITY
    ensures NoneInPart(w + more, Opened(w) + 1)
  {
    hide Statement, Opened, InPart, Key;
    var k := Opened(w) + 1;
    forall kind: int, i: nat | Key(kind) && kind != IDENTITY ensures !InPart(w + more, kind, k, i) {
      PartGrows(w, more, p, v, kind, k, i);
      NotBegun(w, kind, k);
    }
  }

  /** A statement about the current identity, or about the file. */
  lemma {:induction false} SetStores(w: seq<Token>, more: seq<Token>, p: nat, v: Token, env: Env, after: Env)
    requires Statement(w, more, p, v) && Holds(w, env) && more[p - |w|].kind != IDENTITY
    requires after.past == env.past && IdentityHolds(w + more, |env.past|, after.current)
    requires after.mda == if more[p - |w|].kind == MDA then Some(v.sval) else env.mda
    ensures Holds(w + more, after)
  {
    hide Statement, Opened, MdaHolds, IdentityHolds;
    OpenedMore(w, more, p, v);
    MdaStays(w, more, p, v, env.mda);
    forall k | 0 <= k < |after.past| ensures IdentityHolds(w + more, k, IdentityOf(after, k)) {
      IdentityStays(w, more, p, v, k, IdentityOf(env, k));
    }
  }

  lemma {:induction false} AssignStores(w: seq<Token>, more: seq<Token>, p: nat, v: Token, env: Env, key: Kind)
    requires Statement(w, more, p, v) && Holds(w, env) && key == more[p - |w|].kind
    ensures Holds(w + more, Assign(key, v, env))
  {
    hide Statement, Opened, MdaHolds, IdentityHolds, Key;
    var k := |env.past|;
    var after := Assign(key, v, env);
    assert IdentityOf(env, k) == env.current;
    StatementKey(w, more, p, v);
    if key == IDENTITY {
      OpenStores(w, more, p, v, env);
    } else {
      if key == MDA {
        IdentityStays(w, more, p, v, k, env.current);
      } else if key == STARTTLS {
        TlsSet(w, more, p, v, env.current);
      } else {
        var f := KeyOfField(key);
        KeyAssigns(f, v, env);
        FieldSet(w, more, p, v, env.current, f);
      }
      SetStores(w, more, p, v, env, after);
    }
  }

  lemma {:induction false} StatementKey(w: seq<Token>, more: seq<Token>, p: nat, v: Token)
    requires Statement(w, more, p, v)
    ensures Key(more[p - |w|].kind)
  {
  }

  /** The tokens of one node with a value. */
  lemma {:induction false} ValuedStatement(n: int, w: seq<Token>, head: seq<Token>, sign: seq<Token>, v: Token)
    requires Valued(n) && |head| == |Rhs(n)| - 2 && MapSign(sign)
    requires forall i :: 0 <= i < |head| ==> head[i].kind == Rhs(n)[i]
    requires v.kind == Rhs(n)[|Rhs(n)| - 1]
    ensures |head| > 0 && Statement(w, head + sign + [v], |w| + |head| - 1, v)
  {
    var q := |head| - 1;
    assert head[0].kind == Rhs(n)[0] && head[q].kind == Rhs(n)[q];
    assert Key(head[q].kind) && v.kind > MAP && (q == 1 ==> head[0].kind == FORCE);
    hide Rhs, Valued;
    StatementOf(w, head, sign, v);
  }

  lemma {:induction false} StatementOf(w: seq<Token>, head: seq<Token>, sign: seq<Token>, v: Token)
    requires MapSign(sign) && v.kind > MAP && (|head| == 1 || (|head| == 2 && head[0].kind == FORCE))
    requires Key(head[|head| - 1].kind)
    ensures Statement(w, head + sign + [v], |w| + |head| - 1, v)
  {
    var more, q := head + sign + [v], |head| - 1;
    var all, p := w + more, |w| + q;
    assert forall i :: 0 <= i < |more| && i != q ==> more[i].kind in {FORCE, MAP, v.kind as int};
    if |sign| == 1 {
      assert all[p + 1] == sign[0] && all[p + 2] == v;
    } else {
      assert all[p + 1] == v;
    }
  }

  lemma {:induction false} ValuedStores(t: Tree, w: seq<Token>, env: Env)
    requires IsTree(t) && t.Node? && Valued(t.rule) && Holds(w, env)
    ensures Holds(w + Yield(t), Eval(t, env))
  {
    hide Holds, Statement, IsTree, Act, Assign, Eval, Yield, Rhs, Valued;
    var head, sign, v := ValuedShape(t, env);
    RuleKey(t.rule, head, v, env);
    ValuedStatement(t.rule, w, head, sign, v);
    AssignStores(w, head + sign + [v], |w| + |head| - 1, v, env, head[|head| - 1].kind);
  }

  /** `default` has no value. */
  lemma {:induction false} DefaultStores(t: Tree, w: seq<Token>, env: Env)
    requires IsTree(t) && t.Node? && t.rule == 28 && Holds(w, env)
    ensures Holds(w + Yield(t), Eval(t, env))
  {
    hide Holds, IsTree, Eval, Yield;
    DefaultShape(t, env);
    var d := Yield(t)[0];
    assert Yield(t) == [d];
    NeutralStores(w, d, env, env.Choose());
  }

  lemma {:induction false} NeutralPart(w: seq<Token>, d: Token, kind: int, k: nat)
    requires d.kind == DEFAULT && Key(kind)
    ensures forall i: nat :: InPart(w + [d], kind, k, i) <==> InPart(w, kind, k, i)
    ensures forall i: nat :: InPart(w, kind, k, i) ==> i < |w|
  {
    hide Opened;
    forall i: nat ensures InPart(w + [d], kind, k, i) <==> InPart(w, kind, k, i) {
      if i < |w| { assert (w + [d])[..i] == w[..i]; }
    }
  }

  lemma {:induction false} NeutralLast(w: seq<Token>, d: Token, kind: int, k: nat, setting: Option<string>)
    requires d.kind == DEFAULT && Key(kind) && IsLast(w, kind, k, setting)
    ensures IsLast(w + [d], kind, k, setting)
  {
    hide InPart, Key, TextAt;
    var all := w + [d];
    NeutralPart(w, d, kind, k);
    if NoneIn(all, kind, k) { assert NoneIn(w, kind, k); }
    forall i: nat | LastIn(all, kind, k, i) ensures TextAt(all, i, setting) {
      assert LastIn(w, kind, k, i);
      TextStays(w, [d], i, setting);
    }
  }

  lemma {:induction false} NeutralLevel(w: seq<Token>, d: Token, k: nat, level: StartTls)
    requires d.kind == DEFAULT && IsLevel(w, k, level)
    ensures IsLevel(w + [d], k, level)
  {
    hide InPart;
    var all := w + [d];
    NeutralPart(w, d, STARTTLS, k);
    if NoneIn(all, STARTTLS, k) { assert NoneIn(w, STARTTLS, k); }
    forall i: nat | LastIn(all, STARTTLS, k, i)
      ensures HasValue(all, i) && level == Level(all[ValuePos(all, i)].kind)
    {
      assert LastIn(w, STARTTLS, k, i);
    }
  }

  lemma {:induction false} NeutralMda(w: seq<Token>, d: Token, mda: Option<string>)
    requires d.kind == DEFAULT && MdaHolds(w, mda)
    ensures MdaHolds(w + [d], mda)
  {
    hide TextAt;
    var all := w + [d];
    assert forall i :: 0 <= i < |w| ==> all[i] == w[i];
    forall i | 0 <= i < |all| && all[i].kind == MDA && (forall j :: i < j < |all| ==> all[j].kind != MDA)
      ensures TextAt(all, i, mda)
    {
      assert forall j :: i < j < |w| ==> w[j].kind != MDA;
      assert TextAt(w, i, mda);
      TextStays(w, [d], i, mda);
    }
  }

  lemma {:induction false} NeutralStores(w: seq<Token>, d: Token, env: Env, after: Env)
    requires d.kind == DEFAULT && Holds(w, env)
    requires after.past == env.past && after.current == env.current && after.mda == env.mda
    ensures Holds(w + [d], after)
  {
    hide IsLast, IsLevel, MdaHolds;
    NeutralMda(w, d, env.mda);
    assert (w + [d])[..|w|] == w;
    forall k | 0 <= k <= |after.past| ensures IdentityHolds(w + [d], k, IdentityOf(after, k)) {
      var id := IdentityOf(env, k);
      assert IdentityHolds(w, k, id);
      forall f ensures IsLast(w + [d], KeyOf(f), k, Setting(id, f)) {
        NeutralLast(w, d, KeyOf(f), k, Setting(id, f));
      }
      NeutralLevel(w, d, k, id.starttls);
      if k > 0 { NeutralLast(w, d, IDENTITY, k - 1, id.address); }
    }
  }

  lemma {:induction false} TreeStores(t: Tree, w: seq<Token>, env: Env)
    requires IsTree(t) && Statements(Symbol(t)) && Holds(w, env)
    ensures Holds(w + Yield(t), Eval(t, env))
    decreases t
  {
    hide Holds, Eval, IsTree, Rhs;
    if Valued(t.rule) {
      ValuedStores(t, w, env);
    } else if t.rule == 28 {
      DefaultStores(t, w, env);
    } else {
      ListKids(t, env);
      TreesStore(t.kids, w, env);
    }
  }

  lemma {:induction false} TreesStore(ts: seq<Tree>, w: seq<Token>, env: Env)
    requires AllStatements(ts) && Holds(w, env)
    ensures Holds(w + YieldAll(ts), EvalAll(ts, env))
    decreases ts
  {
    hide Holds, Eval, Yield, IsTree, Symbol;
    if ts == [] {
      assert w + YieldAll(ts) == w;
    } else {
      var k := |ts| - 1;
      TreesStore(ts[..k], w, env);
      TreeStores(ts[k], w + YieldAll(ts[..k]), EvalAll(ts[..k], env));
      assert w + YieldAll(ts) == w + YieldAll(ts[..k]) + Yield(ts[k]);
    }
  }

  lemma {:induction false} NothingRead()
    ensures Holds([], StartEnv)
  {
  }

  /** After the actions of a whole parse tree, every identity holds the last value its part of the file
      gives for each setting, and no other; the mail delivery agent is the last one named. */
  lemma {:induction false} FileStored(t: Tree)
    requires IsTree(t) && Symbol(t) == ROOT
    ensures Holds(Yield(t), Eval(t, StartEnv))
  {
    hide Holds, Eval, Yield, IsTree;
    NothingRead();
    TreeStores(t, [], StartEnv);
    assert [] + Yield(t) == Yield(t);
  }
}
