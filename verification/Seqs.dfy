/** Lists as the kernel uses them: duplicate-free sequences with deletion and insertion. */
module Seqs {

  ghost predicate NoDup<T>(s: seq<T>) {
    forall i, j :: 0 <= i < j < |s| ==> s[i] != s[j]
  }

  /** The list after `list_del` of `x`; a list without `x` is unchanged. */
  function Without<T(==)>(s: seq<T>, x: T): (r: seq<T>)
    ensures forall y :: y in s && y != x ==> y in r
    ensures forall y :: y in r ==> y in s && y != x
    ensures |r| <= |s|
    ensures x !in s ==> r == s
  {
    if s == [] then [] else
    if s[0] == x then Without(s[1..], x) else [s[0]] + Without(s[1..], x)
  }

  lemma WithoutStep<T>(s: seq<T>, x: T)
    requires s != []
    ensures Without(s, x) == (if s[0] == x then [] else [s[0]]) + Without(s[1..], x)
  {
  }

  lemma Assoc<T>(p: seq<T>, u: seq<T>, v: seq<T>)
    ensures p + (u + v) == (p + u) + v
  {
  }

  lemma {:induction false} WithoutAppend<T>(s: seq<T>, t: seq<T>, x: T)
    ensures Without(s + t, x) == Without(s, x) + Without(t, x)
    decreases |s|
  {
    if s == [] {
      assert s + t == t;
    } else {
      WithoutAppend(s[1..], t, x);
      assert (s + t)[1..] == s[1..] + t;
      WithoutStep(s + t, x);
      WithoutStep(s, x);
      Assoc(if s[0] == x then [] else [s[0]], Without(s[1..], x), Without(t, x));
    }
  }

  lemma {:induction false} WithoutSplit<T>(s: seq<T>, k: nat)
    requires NoDup(s) && k < |s|
    ensures Without(s, s[k]) == s[..k] + s[k + 1..]
  {
    assert s == s[..k] + ([s[k]] + s[k + 1..]);
    WithoutAppend(s[..k], [s[k]] + s[k + 1..], s[k]);
    WithoutAppend([s[k]], s[k + 1..], s[k]);
  }

  lemma {:induction false} WithoutNoDup<T>(s: seq<T>, x: T)
    requires NoDup(s)
    ensures NoDup(Without(s, x))
    ensures x in s ==> |Without(s, x)| == |s| - 1
  {
    if x in s {
      var k :| 0 <= k < |s| && s[k] == x;
      WithoutSplit(s, k);
    }
  }

  lemma DropDrop<T>(s: seq<T>, i: nat, k: nat)
    requires i + k <= |s|
    ensures s[i..][k..] == s[i + k..]
  {
  }

  lemma TakeTake<T>(s: seq<T>, i: nat, k: nat)
    requires i + k <= |s|
    ensures s[..i + k] == s[..i] + s[i..][..k]
  {
  }
}
