/** Where one string stands in another. */
module Substrings {
  // `s` stands in `b` at `i`.
  predicate Sub(b: string, i: nat, s: string)
    decreases |s|
  {
    if s == "" then i <= |b| else i < |b| && b[i] == s[0] && Sub(b, i + 1, s[1..])
  }

  lemma {:induction false} SubSplit(b: string, i: nat, s: string, t: string)
    requires Sub(b, i, s + t)
    ensures Sub(b, i, s) && Sub(b, i + |s|, t) && i + |s| + |t| <= |b|
    decreases |s|
  {
    if s == "" {
      assert s + t == t;
      SubIs(b, i, t);
    } else {
      assert (s + t)[1..] == s[1..] + t;
      SubSplit(b, i + 1, s[1..], t);
    }
  }

  lemma {:induction false} SubAt(b: string, i: nat, s: string, k: nat)
    requires Sub(b, i, s) && k < |s|
    ensures i + k < |b| && b[i + k] == s[k]
    decreases |s|
  {
    if k > 0 { SubAt(b, i + 1, s[1..], k - 1); }
  }

  lemma {:induction false} SubIs(b: string, i: nat, s: string)
    requires Sub(b, i, s)
    ensures i + |s| <= |b| && b[i..i + |s|] == s
    decreases |s|
  {
    if s != "" { SubIs(b, i + 1, s[1..]); }
  }

  lemma {:induction false} SubHere(b: string, i: nat, s: string)
    requires i + |s| <= |b| && b[i..i + |s|] == s
    ensures Sub(b, i, s)
    decreases |s|
  {
    if s != "" {
      assert b[i] == b[i..i + |s|][0];
      assert b[i + 1..i + 1 + |s[1..]|] == b[i..i + |s|][1..];
      SubHere(b, i + 1, s[1..]);
    }
  }
}
