/** Types and sequence facts shared by the models of the controller's components. */
module Base {
  datatype Option<+T> = None | Some(value: T)

  function Without<T>(s: seq<T>, i: nat): seq<T>
    requires i < |s|
  {
    s[..i] + s[i + 1..]
  }

  // ---- counting ----

  function Count<T>(s: seq<T>, p: T -> bool): nat {
    if s == [] then 0 else Count(s[..|s| - 1], p) + if p(s[|s| - 1]) then 1 else 0
  }

  lemma {:induction false} CountOfPrefix<T>(s: seq<T>, p: T -> bool, i: nat)
    requires i <= |s|
    ensures Count(s[..i], p) <= Count(s, p)
  {
    if i < |s| {
      CountOfPrefix(s[..|s| - 1], p, i);
      assert s[..|s| - 1][..i] == s[..i];
    } else {
      assert s[..i] == s;
    }
  }

  lemma {:induction false} CountedOnce<T>(s: seq<T>, p: T -> bool, i: nat)
    requires i < |s| && p(s[i])
    ensures Count(s, p) >= 1
  {
    if i < |s| - 1 { CountedOnce(s[..|s| - 1], p, i); }
  }

  lemma {:induction false} CountedTwice<T>(s: seq<T>, p: T -> bool, i: nat, j: nat)
    requires i < j < |s| && p(s[i]) && p(s[j])
    ensures Count(s, p) >= 2
  {
    if j < |s| - 1 { CountedTwice(s[..|s| - 1], p, i, j); } else { CountedOnce(s[..|s| - 1], p, i); }
  }

  lemma {:induction false} CountedNever<T>(s: seq<T>, p: T -> bool)
    requires forall i | 0 <= i < |s| :: !p(s[i])
    ensures Count(s, p) == 0
  {
    if s != [] { CountedNever(s[..|s| - 1], p); }
  }

  lemma OnlyOneCounted<T>(s: seq<T>, p: T -> bool, i: nat, j: nat)
    requires Count(s, p) <= 1 && i < |s| && j < |s| && p(s[i]) && p(s[j])
    ensures i == j
  {
    if i < j { CountedTwice(s, p, i, j); }
    if j < i { CountedTwice(s, p, j, i); }
  }
}
