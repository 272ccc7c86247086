/** The key schedule of the AES code, in one region of 120 words: `E` in front, `D` from word 60. */
module AesKeys {
  import opened AesSpec
  import opened AesWords
  import opened AesTables
  import opened AesRounds

  predicate KeyLength(n: nat) { n == 16 || n == 24 || n == 32 }

  /** The word before position `i`, as the expansion uses it there. */
  ghost function Before(nk: nat, i: nat, temp: Col): Col
    requires 0 < nk <= i
  {
    if i % nk == 0 then Plus(SubCol(Turn1(temp)), Col(Rcon(i / nk - 1), 0, 0, 0)) else
    if nk > 6 && i % nk == 4 then SubCol(temp) else temp
  }

  /** The key expansion of section 5.2 on columns, for a key of `nk` words. */
  ghost function Expand(key: seq<bv8>, nk: nat, i: nat): Col
    requires |key| == 4 * nk > 0
  {
    if i < nk then Col(key[4 * i], key[4 * i + 1], key[4 * i + 2], key[4 * i + 3]) else
    Plus(Before(nk, i, Expand(key, nk, i - 1)), Expand(key, nk, i - nk))
  }

  ghost function W(key: seq<bv8>): Schedule {
    (i: nat) => if KeyLength(|key|) then Expand(key, |key| / 4, i) else Col(0, 0, 0, 0)
  }

  ghost predicate ExpandsAt(w: Schedule, nk: nat, n: nat)
    requires 0 < nk
  {
    n >= nk ==> w(n) == Plus(Before(nk, n, w(n - 1)), w(n - nk))
  }

  /** `w` follows the recurrence of the key expansion. */
  ghost predicate Expansion(w: Schedule, nk: nat) {
    0 < nk && forall n: nat {:trigger ExpandsAt(w, nk, n)} :: ExpandsAt(w, nk, n)
  }

  lemma WExpands(key: seq<bv8>)
    requires KeyLength(|key|)
    ensures Expansion(W(key), |key| / 4)
  {
    var w, nk := W(key), |key| / 4;
    forall n: nat ensures ExpandsAt(w, nk, n) {
      if n >= nk {
        ExpandStep(key, nk, n);
        Substitute(nk, n, w(n), w(n - 1), w(n - nk), Expand(key, nk, n), Expand(key, nk, n - 1), Expand(key, nk, n - nk));
      }
    }
  }

  lemma ExpandStep(key: seq<bv8>, nk: nat, n: nat)
    requires |key| == 4 * nk > 0 && nk <= n
    ensures Expand(key, nk, n) == Plus(Before(nk, n, Expand(key, nk, n - 1)), Expand(key, nk, n - nk))
  {
  }

  lemma Substitute(nk: nat, n: nat, a: Col, b: Col, c: Col, a': Col, b': Col, c': Col)
    requires 0 < nk <= n && a == a' && b == b' && c == c' && a' == Plus(Before(nk, n, b'), c')
    ensures a == Plus(Before(nk, n, b), c)
  {
  }

  // ---------------------------------------------------------------- words in place

  ghost predicate WordOk(ek: seq<bv32>, w: Schedule, j: nat) {
    j < |ek| && ColOf(ek[j]) == w(j)
  }

  /** The first `n` words of the expansion are in place. */
  ghost predicate Expanded(ek: seq<bv32>, w: Schedule, n: nat) {
    n <= |ek| && forall j: nat {:trigger WordOk(ek, w, j)} :: j < n ==> WordOk(ek, w, j)
  }

  lemma ExpandedNext(ek: seq<bv32>, w: Schedule, n: nat, x: bv32)
    requires Expanded(ek, w, n) && n < |ek| && ColOf(x) == w(n)
    ensures Expanded(ek[n := x], w, n + 1)
  {
    var ek' := ek[n := x];
    forall j: nat | j < n + 1 ensures WordOk(ek', w, j) {
      if j < n {
        assert WordOk(ek, w, j);
      }
    }
  }

  lemma ExpandedLess(ek: seq<bv32>, w: Schedule, n: nat, m: nat)
    requires Expanded(ek, w, n) && m <= n
    ensures Expanded(ek, w, m)
  {
    forall j: nat | j < m ensures WordOk(ek, w, j) {
    }
  }

  method Append(ek: array<bv32>, n: nat, x: bv32, ghost w: Schedule)
    requires n < ek.Length && Expanded(ek[..], w, n) && ColOf(x) == w(n)
    modifies ek
    ensures Expanded(ek[..], w, n + 1) && ek[n] == x
  {
    ExpandedNext(ek[..], w, n, x);
    ghost var s := ek[..];
    ek[n] := x;
    assert ek[..] == s[n := x];
  }

  lemma PlainStep(w: Schedule, n: nat, nk: nat)
    requires Expansion(w, nk) && nk <= n && n % nk != 0 && !(nk > 6 && n % nk == 4)
    ensures w(n) == Plus(w(n - 1), w(n - nk))
  {
    assert ExpandsAt(w, nk, n);
  }

  lemma SubStep(w: Schedule, n: nat, nk: nat)
    requires Expansion(w, nk) && 6 < nk <= n && n % nk == 4
    ensures w(n) == Plus(SubCol(w(n - 1)), w(n - nk))
  {
    assert ExpandsAt(w, nk, n);
  }

  lemma FirstStep(w: Schedule, n: nat, nk: nat, i: nat)
    requires Expansion(w, nk) && nk <= n && n % nk == 0 && n / nk == i + 1
    ensures w(n) == Plus(Plus(SubCol(Turn1(w(n - 1))), Col(Rcon(i), 0, 0, 0)), w(n - nk))
  {
    assert ExpandsAt(w, nk, n);
  }

  /** `t ^= E_KEY[n - nk]; E_KEY[n] = t` */
  method ChainWord(ek: array<bv32>, n: nat, nk: nat, t: bv32, ghost w: Schedule) returns (t': bv32)
    requires Expansion(w, nk) && nk <= n < ek.Length && n % nk != 0 && !(nk > 6 && n % nk == 4)
    requires Expanded(ek[..], w, n) && t == ek[n - 1]
    modifies ek
    ensures Expanded(ek[..], w, n + 1) && t' == ek[n]
  {
    t' := Xor(t, ek[n - nk]);
    XorCols(t, ek[n - nk]);
    PlainStep(w, n, nk);
    assert WordOk(ek[..], w, n - 1) && WordOk(ek[..], w, n - nk);
    Append(ek, n, t', w);
  }

  lemma FirstCol(tabs: Tables, t: bv32, i: nat, v: Col)
    requires TablesOk(tabs) && i < 10 && ColOf(t) == v
    ensures ColOf(Xor(LsBox(tabs, Rotr8(t)), tabs.rco[i])) == Plus(SubCol(Turn1(v)), Col(Rcon(i), 0, 0, 0))
  {
    Rotr8Col(t);
    LsBoxIsSub(tabs, Rotr8(t));
    XorCols(LsBox(tabs, Rotr8(t)), tabs.rco[i]);
  }

  /** The first word of a group: rotate, substitute, add the round constant. */
  method FirstWord(tabs: Tables, ek: array<bv32>, n: nat, nk: nat, i: nat, t: bv32, ghost w: Schedule) returns (t': bv32)
    requires TablesOk(tabs) && Expansion(w, nk) && nk <= n < ek.Length && n % nk == 0 && n / nk == i + 1 && i < 10
    requires Expanded(ek[..], w, n) && t == ek[n - 1]
    modifies ek
    ensures Expanded(ek[..], w, n + 1) && t' == ek[n]
  {
    var u := Xor(LsBox(tabs, Rotr8(t)), tabs.rco[i]);
    assert WordOk(ek[..], w, n - 1) && WordOk(ek[..], w, n - nk);
    FirstCol(tabs, t, i, w(n - 1));
    t' := Xor(u, ek[n - nk]);
    XorCols(u, ek[n - nk]);
    FirstStep(w, n, nk, i);
    Append(ek, n, t', w);
  }

  /** The fifth word of a group of eight: substitute without rotating. */
  method SubWord(tabs: Tables, ek: array<bv32>, n: nat, nk: nat, t: bv32, ghost w: Schedule) returns (t': bv32)
    requires TablesOk(tabs) && Expansion(w, nk) && 6 < nk <= n < ek.Length && n % nk == 4
    requires Expanded(ek[..], w, n) && t == ek[n - 1]
    modifies ek
    ensures Expanded(ek[..], w, n + 1) && t' == ek[n]
  {
    assert WordOk(ek[..], w, n - 1) && WordOk(ek[..], w, n - nk);
    LsBoxIsSub(tabs, t);
    t' := Xor(LsBox(tabs, t), ek[n - nk]);
    XorCols(LsBox(tabs, t), ek[n - nk]);
    SubStep(w, n, nk);
    Append(ek, n, t', w);
  }

  /** loop4 */
  method Loop4(tabs: Tables, ek: array<bv32>, i: nat, t: bv32, ghost w: Schedule)
    returns (t': bv32)
    requires TablesOk(tabs) && Expansion(w, 4) && i < 10 && ek.Length == 120
    requires Expanded(ek[..], w, 4 * i + 4) && t == ek[4 * i + 3]
    modifies ek
    ensures Expanded(ek[..], w, 4 * i + 8) && t' == ek[4 * i + 7]
  {
    t' := FirstWord(tabs, ek, 4 * i + 4, 4, i, t, w);
    t' := ChainWord(ek, 4 * i + 5, 4, t', w);
    t' := ChainWord(ek, 4 * i + 6, 4, t', w);
    t' := ChainWord(ek, 4 * i + 7, 4, t', w);
  }

  /** loop6 */
  method Loop6(tabs: Tables, ek: array<bv32>, i: nat, t: bv32, ghost w: Schedule)
    returns (t': bv32)
    requires TablesOk(tabs) && Expansion(w, 6) && i < 8 && ek.Length == 120
    requires Expanded(ek[..], w, 6 * i + 6) && t == ek[6 * i + 5]
    modifies ek
    ensures Expanded(ek[..], w, 6 * i + 12) && t' == ek[6 * i + 11]
  {
    t' := FirstWord(tabs, ek, 6 * i + 6, 6, i, t, w);
    t' := ChainWord(ek, 6 * i + 7, 6, t', w);
    t' := ChainWord(ek, 6 * i + 8, 6, t', w);
    t' := ChainWord(ek, 6 * i + 9, 6, t', w);
    t' := ChainWord(ek, 6 * i + 10, 6, t', w);
    t' := ChainWord(ek, 6 * i + 11, 6, t', w);
  }

  /** loop8 */
  method Loop8(tabs: Tables, ek: array<bv32>, i: nat, t: bv32, ghost w: Schedule)
    returns (t': bv32)
    requires TablesOk(tabs) && Expansion(w, 8) && i < 7 && ek.Length == 120
    requires Expanded(ek[..], w, 8 * i + 8) && t == ek[8 * i + 7]
    modifies ek
    ensures Expanded(ek[..], w, 8 * i + 16) && t' == ek[8 * i + 15]
  {
    t' := FirstWord(tabs, ek, 8 * i + 8, 8, i, t, w);
    t' := ChainWord(ek, 8 * i + 9, 8, t', w);
    t' := ChainWord(ek, 8 * i + 10, 8, t', w);
    t' := ChainWord(ek, 8 * i + 11, 8, t', w);
    t' := SubWord(tabs, ek, 8 * i + 12, 8, t', w);
    t' := ChainWord(ek, 8 * i + 13, 8, t', w);
    t' := ChainWord(ek, 8 * i + 14, 8, t', w);
    t' := ChainWord(ek, 8 * i + 15, 8, t', w);
  }

  ghost predicate StartsWith(w: Schedule, key: seq<bv8>) {
    forall i: nat {:trigger w(i)} :: 4 * i + 3 < |key| ==> w(i) == Col(key[4 * i], key[4 * i + 1], key[4 * i + 2], key[4 * i + 3])
  }

  lemma WStarts(key: seq<bv8>)
    requires KeyLength(|key|)
    ensures StartsWith(W(key), key)
  {
  }

  /** u32_in on the key bytes */
  method LoadKey(ek: array<bv32>, key: seq<bv8>, ghost w: Schedule)
    requires KeyLength(|key|) && ek.Length == 120 && StartsWith(w, key)
    modifies ek
    ensures Expanded(ek[..], w, |key| / 4)
  {
    var i := 0;
    while i < |key| / 4
      invariant 0 <= i <= |key| / 4
      invariant Expanded(ek[..], w, i)
    {
      var v := Col(key[4 * i], key[4 * i + 1], key[4 * i + 2], key[4 * i + 3]);
      ColOfWord(v);
      Append(ek, i, WordOf(v), w);
      i := i + 1;
    }
  }

  method Expand16(tabs: Tables, ek: array<bv32>, ghost w: Schedule)
    requires TablesOk(tabs) && ek.Length == 120 && Expansion(w, 4) && Expanded(ek[..], w, 4)
    modifies ek
    ensures Expanded(ek[..], w, 44)
  {
    var i, t := 0, ek[3];
    while i < 10
      invariant 0 <= i <= 10 && Expanded(ek[..], w, 4 * i + 4) && t == ek[4 * i + 3]
    {
      t := Loop4(tabs, ek, i, t, w);
      i := i + 1;
    }
  }

  method Expand24(tabs: Tables, ek: array<bv32>, ghost w: Schedule)
    requires TablesOk(tabs) && ek.Length == 120 && Expansion(w, 6) && Expanded(ek[..], w, 6)
    modifies ek
    ensures Expanded(ek[..], w, 52)
  {
    var i, t := 0, ek[5];
    while i < 8
      invariant 0 <= i <= 8 && Expanded(ek[..], w, 6 * i + 6) && t == ek[6 * i + 5]
    {
      t := Loop6(tabs, ek, i, t, w);
      i := i + 1;
    }
    ExpandedLess(ek[..], w, 54, 52);
  }

  method Expand32(tabs: Tables, ek: array<bv32>, ghost w: Schedule)
    requires TablesOk(tabs) && ek.Length == 120 && Expansion(w, 8) && Expanded(ek[..], w, 8)
    modifies ek
    ensures Expanded(ek[..], w, 60)
  {
    var i, t := 0, ek[7];
    while i < 7
      invariant 0 <= i <= 7 && Expanded(ek[..], w, 8 * i + 8) && t == ek[8 * i + 7]
    {
      t := Loop8(tabs, ek, i, t, w);
      i := i + 1;
    }
    ExpandedLess(ek[..], w, 64, 60);
  }

  /** The encryption schedule.  For 32-byte keys the last group runs four words past `E`. */
  method ExpandKey(tabs: Tables, ek: array<bv32>, key: seq<bv8>, ghost w: Schedule)
    requires TablesOk(tabs) && KeyLength(|key|) && ek.Length == 120 && StartsWith(w, key) && Expansion(w, |key| / 4)
    modifies ek
    ensures Expanded(ek[..], w, |key| + 28)
  {
    LoadKey(ek, key, w);
    if |key| == 16 {
      assert |key| / 4 == 4;
      Expand16(tabs, ek, w);
    } else if |key| == 24 {
      assert |key| / 4 == 6;
      Expand24(tabs, ek, w);
    } else {
      assert |key| / 4 == 8;
      Expand32(tabs, ek, w);
    }
  }

  // ---------------------------------------------------------------- the decryption schedule

  /** A word of `D` holds the column `col(j)`. */
  ghost predicate Stored(ek: seq<bv32>, col: Schedule, j: nat) {
    60 + j < |ek| && ColOf(ek[60 + j]) == col(j)
  }

  /** The words `4..i` of `D` hold the columns `col`. */
  ghost predicate StoredTo(ek: seq<bv32>, col: Schedule, i: nat) {
    forall j: nat {:trigger Stored(ek, col, j)} :: 4 <= j < i ==> Stored(ek, col, j)
  }

  lemma StoredNext(ek: seq<bv32>, col: Schedule, i: nat, x: bv32)
    requires StoredTo(ek, col, i) && 60 + i < |ek| && ColOf(x) == col(i)
    ensures StoredTo(ek[60 + i := x], col, i + 1)
  {
    var ek' := ek[60 + i := x];
    forall j: nat | 4 <= j < i + 1 ensures Stored(ek', col, j) {
      if j < i {
        assert Stored(ek, col, j);
      }
    }
  }

  lemma ExpandedBelow(ek: seq<bv32>, w: Schedule, n: nat, i: nat, x: bv32)
    requires Expanded(ek, w, n) && n <= i < |ek|
    ensures Expanded(ek[i := x], w, n)
  {
    var ek' := ek[i := x];
    forall j: nat | j < n ensures WordOk(ek', w, j) {
      assert WordOk(ek, w, j);
    }
  }

  method SetWord(ek: array<bv32>, i: nat, x: bv32, ghost w: Schedule, ghost n: nat)
    requires Expanded(ek[..], w, n) && n <= i < ek.Length
    modifies ek
    ensures ek[..] == old(ek[..])[i := x] && Expanded(ek[..], w, n)
  {
    ExpandedBelow(ek[..], w, n, i, x);
    ghost var s := ek[..];
    ek[i] := x;
    assert ek[..] == s[i := x];
  }

  ghost predicate InvertsAt(w: Schedule, col: Schedule, i: nat) { col(i) == InvMix(w(i)) }

  /** `col` is `w` with InvMixColumns applied. */
  ghost predicate Inverted(w: Schedule, col: Schedule) {
    forall i: nat {:trigger InvertsAt(w, col, i)} :: InvertsAt(w, col, i)
  }

  lemma InvWord(ek: seq<bv32>, w: Schedule, col: Schedule, n: nat, i: nat)
    requires Expanded(ek, w, n) && i < n && Inverted(w, col)
    ensures ColOf(ImixCol(ek[i])) == col(i)
  {
    assert WordOk(ek, w, i);
    ImixColIsInvMix(ek[i]);
    assert InvertsAt(w, col, i);
  }

  /** The front of `D` is a copy of the front of `E`. */
  predicate Copied(ek: seq<bv32>) {
    |ek| == 120 && ek[60] == ek[0] && ek[61] == ek[1] && ek[62] == ek[2] && ek[63] == ek[3]
  }

  /** What aes_set_key leaves behind for a key of `len` bytes: the expansion in `E`, and in `D`
      the expansion with InvMixColumns applied to all but the first and the last round key. */
  ghost predicate Scheduled(ek: seq<bv32>, w: Schedule, col: Schedule, len: nat) {
    Copied(ek) && Expanded(ek, w, len + 28) && StoredTo(ek, col, len + 24)
  }

  method InverseWord(ek: array<bv32>, i: nat, ghost w: Schedule, ghost col: Schedule, ghost n: nat) returns (x: bv32)
    requires i < n <= ek.Length && Expanded(ek[..], w, n) && Inverted(w, col)
    ensures ColOf(x) == col(i)
  {
    InvWord(ek[..], w, col, n, i);
    x := ImixCol(ek[i]);
  }

  method InvertWord(ek: array<bv32>, i: nat, len: nat, ghost w: Schedule, ghost col: Schedule)
    requires Copied(ek[..]) && KeyLength(len) && Expanded(ek[..], w, len + 28) && StoredTo(ek[..], col, i)
    requires 4 <= i < len + 24 && Inverted(w, col)
    modifies ek
    ensures Copied(ek[..]) && Expanded(ek[..], w, len + 28) && StoredTo(ek[..], col, i + 1)
  {
    var x := InverseWord(ek, i, w, col, len + 28);
    StoredNext(ek[..], col, i, x);
    SetWord(ek, 60 + i, x, w, len + 28);
  }

  method InvertKey(ek: array<bv32>, len: nat, ghost w: Schedule, ghost col: Schedule)
    requires KeyLength(len) && ek.Length == 120 && Expanded(ek[..], w, len + 28) && Inverted(w, col)
    modifies ek
    ensures Scheduled(ek[..], w, col, len)
  {
    SetWord(ek, 60, ek[0], w, len + 28);
    SetWord(ek, 61, ek[1], w, len + 28);
    SetWord(ek, 62, ek[2], w, len + 28);
    SetWord(ek, 63, ek[3], w, len + 28);
    var i := 4;
    while i < len + 24
      invariant 4 <= i <= len + 24 && Copied(ek[..])
      invariant Expanded(ek[..], w, len + 28) && StoredTo(ek[..], col, i)
    {
      InvertWord(ek, i, len, w, col);
      i := i + 1;
    }
  }
}
