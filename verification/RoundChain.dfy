/** Iterated rounds, forwards with keys `1..r` and backwards with keys `nr - 1` down to 1. */
module RoundChain {

  ghost function Up<T, K>(f: (T, K) -> T, key: nat -> K, s: T, r: nat): T {
    if r == 0 then s else f(Up(f, key, s, r - 1), key(r))
  }

  ghost function Down<T, K>(g: (T, K) -> T, key: nat -> K, nr: nat, s: T, j: nat): T
    requires j <= nr
  {
    if j == 0 then s else g(Down(g, key, nr, s, j - 1), key(nr - j))
  }

  lemma UpStep<T, K>(f: (T, K) -> T, key: nat -> K, s: T, r: nat, u: T)
    requires u == Up(f, key, s, r)
    ensures f(u, key(r + 1)) == Up(f, key, s, r + 1)
  {
  }

  lemma DownStep<T, K>(g: (T, K) -> T, key: nat -> K, nr: nat, s: T, j: nat, u: T)
    requires j < nr && u == Down(g, key, nr, s, j)
    ensures g(u, key(nr - j - 1)) == Down(g, key, nr, s, j + 1)
  {
  }

  /** Seen through `h`, one step of `g` takes back one step of `f` with the same key. */
  ghost predicate Undoes<T(!new), K(!new)>(f: (T, K) -> T, g: (T, K) -> T, h: T -> T) {
    forall t, k {:trigger f(t, k)} :: g(h(f(t, k)), k) == h(t)
  }

  lemma UndoOne<T(!new), K(!new)>(f: (T, K) -> T, g: (T, K) -> T, h: T -> T, t: T, k: K)
    requires Undoes(f, g, h)
    ensures g(h(f(t, k)), k) == h(t)
  {
  }

  /** Going down meets going up between the rounds. */
  lemma {:induction false} Meet<T(!new), K(!new)>(f: (T, K) -> T, g: (T, K) -> T, h: T -> T, key: nat -> K, nr: nat, s: T, j: nat)
    requires Undoes(f, g, h) && j < nr
    ensures Down(g, key, nr, h(Up(f, key, s, nr - 1)), j) == h(Up(f, key, s, nr - 1 - j))
    decreases j
  {
    if j > 0 {
      Meet(f, g, h, key, nr, s, j - 1);
      UndoOne(f, g, h, Up(f, key, s, nr - 1 - j), key(nr - j));
    }
  }

  lemma MeetEnd<T(!new), K(!new)>(f: (T, K) -> T, g: (T, K) -> T, h: T -> T, key: nat -> K, nr: nat, s: T)
    requires Undoes(f, g, h) && 0 < nr
    ensures Down(g, key, nr, h(Up(f, key, s, nr - 1)), nr - 1) == h(s)
  {
    Meet(f, g, h, key, nr, s, nr - 1);
  }

  ghost predicate Same<T(!new), K(!new)>(g: (T, K) -> T, h: (T, K) -> T) {
    forall t, k {:trigger g(t, k)} :: g(t, k) == h(t, k)
  }

  lemma {:induction false} DownSame<T(!new), K(!new)>(g: (T, K) -> T, h: (T, K) -> T, key: nat -> K, nr: nat, s: T, j: nat)
    requires Same(g, h) && j <= nr
    ensures Down(g, key, nr, s, j) == Down(h, key, nr, s, j)
    decreases j
  {
    if j > 0 {
      DownSame(g, h, key, nr, s, j - 1);
    }
  }
}
