/** The TEA family: Feistel rounds whose loops count in a wrapping sum. */
module Tea {
  import opened RoundChain

  /** Unsigned 32-bit words, whose sums and differences wrap around. */
  type u32 = bv32

  function Plus(x: u32, d: u32): u32 { x + d }

  function Minus(x: u32, d: u32): u32 { x - d }

  lemma SumMinus(x: u32, d: u32)
    ensures Minus(x + d, d) == x
  {
  }

  lemma PlusMinus(x: u32, d: u32)
    ensures Minus(Plus(x, d), d) == x
  {
    SumMinus(x, d);
  }

  const DELTA: u32 := 0x9e3779b9

  /** XTEA_DELTA * XTEA_ROUNDS, and TEA_DELTA << 5 */
  const LIMIT: u32 := DELTA * 32

  datatype Block = Block(y: u32, z: u32)
  datatype Key = Key(k0: u32, k1: u32, k2: u32, k3: u32)

  function Pick(k: Key, i: u32): u32 {
    if i == 0 then k.k0 else if i == 1 then k.k1 else if i == 2 then k.k2 else k.k3
  }

  function Low(k: Key, sum: u32): u32 { Pick(k, sum & 3) }

  function High(k: Key, sum: u32): u32 { Pick(k, (sum >> 11) & 3) }

  // ---------------------------------------------------------------- the wrapping sum

  /** The sum after `n` rounds. */
  function Sum(n: nat): u32 { if n == 0 then 0 else Plus(Sum(n - 1), DELTA) }

  lemma SumNext(n: nat, c: u32, d: u32)
    requires Sum(n) == c && Plus(c, DELTA) == d
    ensures Sum(n + 1) == d
  {
  }

  lemma Sums1(z: nat)
    requires Sum(z) == 0x00000000
    ensures Sum(z + 1) == 0x9e3779b9
    ensures Sum(z + 2) == 0x3c6ef372
    ensures Sum(z + 3) == 0xdaa66d2b
    ensures Sum(z + 4) == 0x78dde6e4
    ensures Sum(z + 5) == 0x1715609d
    ensures Sum(z + 6) == 0xb54cda56
    ensures Sum(z + 7) == 0x5384540f
    ensures Sum(z + 8) == 0xf1bbcdc8
  {
    SumNext(z, 0x00000000, 0x9e3779b9);
    SumNext(z + 1, 0x9e3779b9, 0x3c6ef372);
    SumNext(z + 2, 0x3c6ef372, 0xdaa66d2b);
    SumNext(z + 3, 0xdaa66d2b, 0x78dde6e4);
    SumNext(z + 4, 0x78dde6e4, 0x1715609d);
    SumNext(z + 5, 0x1715609d, 0xb54cda56);
    SumNext(z + 6, 0xb54cda56, 0x5384540f);
    SumNext(z + 7, 0x5384540f, 0xf1bbcdc8);
  }

  lemma Sums2(z: nat)
    requires Sum(z) == 0xf1bbcdc8
    ensures Sum(z + 1) == 0x8ff34781
    ensures Sum(z + 2) == 0x2e2ac13a
    ensures Sum(z + 3) == 0xcc623af3
    ensures Sum(z + 4) == 0x6a99b4ac
    ensures Sum(z + 5) == 0x08d12e65
    ensures Sum(z + 6) == 0xa708a81e
    ensures Sum(z + 7) == 0x454021d7
    ensures Sum(z + 8) == 0xe3779b90
  {
    SumNext(z, 0xf1bbcdc8, 0x8ff34781);
    SumNext(z + 1, 0x8ff34781, 0x2e2ac13a);
    SumNext(z + 2, 0x2e2ac13a, 0xcc623af3);
    SumNext(z + 3, 0xcc623af3, 0x6a99b4ac);
    SumNext(z + 4, 0x6a99b4ac, 0x08d12e65);
    SumNext(z + 5, 0x08d12e65, 0xa708a81e);
    SumNext(z + 6, 0xa708a81e, 0x454021d7);
    SumNext(z + 7, 0x454021d7, 0xe3779b90);
  }

  lemma Sums3(z: nat)
    requires Sum(z) == 0xe3779b90
    ensures Sum(z + 1) == 0x81af1549
    ensures Sum(z + 2) == 0x1fe68f02
    ensures Sum(z + 3) == 0xbe1e08bb
    ensures Sum(z + 4) == 0x5c558274
    ensures Sum(z + 5) == 0xfa8cfc2d
    ensures Sum(z + 6) == 0x98c475e6
    ensures Sum(z + 7) == 0x36fbef9f
    ensures Sum(z + 8) == 0xd5336958
  {
    SumNext(z, 0xe3779b90, 0x81af1549);
    SumNext(z + 1, 0x81af1549, 0x1fe68f02);
    SumNext(z + 2, 0x1fe68f02, 0xbe1e08bb);
    SumNext(z + 3, 0xbe1e08bb, 0x5c558274);
    SumNext(z + 4, 0x5c558274, 0xfa8cfc2d);
    SumNext(z + 5, 0xfa8cfc2d, 0x98c475e6);
    SumNext(z + 6, 0x98c475e6, 0x36fbef9f);
    SumNext(z + 7, 0x36fbef9f, 0xd5336958);
  }

  lemma Sums4(z: nat)
    requires Sum(z) == 0xd5336958
    ensures Sum(z + 1) == 0x736ae311
    ensures Sum(z + 2) == 0x11a25cca
    ensures Sum(z + 3) == 0xafd9d683
    ensures Sum(z + 4) == 0x4e11503c
    ensures Sum(z + 5) == 0xec48c9f5
    ensures Sum(z + 6) == 0x8a8043ae
    ensures Sum(z + 7) == 0x28b7bd67
    ensures Sum(z + 8) == 0xc6ef3720
  {
    SumNext(z, 0xd5336958, 0x736ae311);
    SumNext(z + 1, 0x736ae311, 0x11a25cca);
    SumNext(z + 2, 0x11a25cca, 0xafd9d683);
    SumNext(z + 3, 0xafd9d683, 0x4e11503c);
    SumNext(z + 4, 0x4e11503c, 0xec48c9f5);
    SumNext(z + 5, 0xec48c9f5, 0x8a8043ae);
    SumNext(z + 6, 0x8a8043ae, 0x28b7bd67);
    SumNext(z + 7, 0x28b7bd67, 0xc6ef3720);
  }

  /** The loop tests `sum != limit` and `sum != 0` count exactly 32 rounds. */
  lemma SumCounts(n: nat)
    requires n <= 32
    ensures Sum(n) == LIMIT <==> n == 32
    ensures Sum(n) == 0 <==> n == 0
  {
    Sums1(0);
    Sums2(8);
    Sums3(16);
    Sums4(24);
    assert LIMIT == 0xc6ef3720;
  }

  // ---------------------------------------------------------------- Feistel rounds

  /** What a half round adds, from the other half and the sum before and after the round. */
  type Half = (u32, u32, u32) -> u32

  function Round(f: Half, g: Half, b: Block, s: u32, t: u32): Block {
    var y := Plus(b.y, f(b.z, s, t));
    Block(y, Plus(b.z, g(y, s, t)))
  }

  function Unround(f: Half, g: Half, b: Block, s: u32, t: u32): Block {
    var z := Minus(b.z, g(b.y, s, t));
    Block(Minus(b.y, f(z, s, t)), z)
  }

  function Before(r: nat): u32 { if r == 0 then 0 else Sum(r - 1) }

  function Forth(f: Half, g: Half): (Block, nat) -> Block { (b: Block, r: nat) => Round(f, g, b, Before(r), Sum(r)) }

  function Back(f: Half, g: Half): (Block, nat) -> Block { (b: Block, r: nat) => Unround(f, g, b, Before(r), Sum(r)) }

  function Same(): Block -> Block { (b: Block) => b }

  function Number(): nat -> nat { (n: nat) => n }

  lemma RoundUndone(f: Half, g: Half, b: Block, s: u32, t: u32)
    ensures Unround(f, g, Round(f, g, b, s, t), s, t) == b
  {
    var y := Plus(b.y, f(b.z, s, t));
    PlusMinus(b.z, g(y, s, t));
    PlusMinus(b.y, f(b.z, s, t));
  }

  /** `n` rounds. */
  ghost function Encrypted(f: Half, g: Half, b: Block, n: nat): Block { Up(Forth(f, g), Number(), b, n) }

  /** Rounds 32 down to `33 - n` taken back. */
  ghost function Decrypted(f: Half, g: Half, b: Block, n: nat): Block
    requires n <= 32
  {
    Down(Back(f, g), Number(), 33, b, n)
  }

  /** Decryption undoes encryption, for all half-round functions. */
  lemma FeistelRoundTrip(f: Half, g: Half, b: Block)
    ensures Decrypted(f, g, Encrypted(f, g, b, 32), 32) == b
  {
    var forth, back, same := Forth(f, g), Back(f, g), Same();
    forall b: Block, r: nat ensures back(same(forth(b, r)), r) == same(b) {
      RoundUndone(f, g, b, Before(r), Sum(r));
    }
    MeetEnd(forth, back, same, Number(), 33, b);
  }

  // ---------------------------------------------------------------- the ciphers

  function TeaMix(x: u32, sum: u32, ka: u32, kb: u32): u32 { ((x << 4) + ka) ^ (x + sum) ^ ((x >> 5) + kb) }

  function XteaMix(x: u32, sum: u32, k: u32): u32 { (((x << 4) ^ (x >> 5)) + x) ^ (sum + k) }

  function XetaMix(x: u32, sum: u32, k: u32): u32 { ((x << 4) ^ (x >> 5)) + (x ^ sum) + k }

  function TeaY(k: Key): Half { (x, s, t) => TeaMix(x, t, k.k0, k.k1) }

  function TeaZ(k: Key): Half { (x, s, t) => TeaMix(x, t, k.k2, k.k3) }

  function XteaY(k: Key): Half { (x, s, t) => XteaMix(x, s, Low(k, s)) }

  function XteaZ(k: Key): Half { (x, s, t) => XteaMix(x, t, High(k, t)) }

  function XetaY(k: Key): Half { (x, s, t) => XetaMix(x, s, Low(k, s)) }

  function XetaZ(k: Key): Half { (x, s, t) => XetaMix(x, t, High(k, t)) }

  lemma ForthAt(f: Half, g: Half, c: Block, r: nat)
    requires 0 < r
    ensures Forth(f, g)(c, Number()(r)) == Round(f, g, c, Sum(r - 1), Sum(r))
  {
    assert Number()(r) == r && Before(r) == Sum(r - 1);
  }

  lemma BackAt(f: Half, g: Half, c: Block, r: nat)
    requires 0 < r
    ensures Back(f, g)(c, Number()(r)) == Unround(f, g, c, Sum(r - 1), Sum(r))
  {
    assert Number()(r) == r && Before(r) == Sum(r - 1);
  }

  lemma ForthStep(f: Half, g: Half, b: Block, n: nat, c: Block)
    requires c == Encrypted(f, g, b, n)
    ensures Round(f, g, c, Sum(n), Sum(n + 1)) == Encrypted(f, g, b, n + 1)
  {
    UpStep(Forth(f, g), Number(), b, n, c);
    ForthAt(f, g, c, n + 1);
  }

  lemma BackStep(f: Half, g: Half, b: Block, j: nat, c: Block)
    requires j < 32 && c == Decrypted(f, g, b, j)
    ensures Unround(f, g, c, Sum(31 - j), Sum(32 - j)) == Decrypted(f, g, b, j + 1)
  {
    DownStep(Back(f, g), Number(), 33, b, j, c);
    BackAt(f, g, c, 32 - j);
  }

  lemma CountedStep(f: Half, g: Half, b: Block, n: nat, c: Block, sum: u32)
    requires sum == Sum(n) && c == Encrypted(f, g, b, n)
    ensures Plus(sum, DELTA) == Sum(n + 1)
    ensures Round(f, g, c, sum, Plus(sum, DELTA)) == Encrypted(f, g, b, n + 1)
  {
    ForthStep(f, g, b, n, c);
    SumStep(n);
  }

  lemma EncryptStep(f: Half, g: Half, b: Block, n: nat, c: Block, sum: u32)
    requires n <= 32 && sum == Sum(n) && sum != LIMIT && c == Encrypted(f, g, b, n)
    ensures n < 32 && Plus(sum, DELTA) == Sum(n + 1)
    ensures Round(f, g, c, sum, Plus(sum, DELTA)) == Encrypted(f, g, b, n + 1)
  {
    SumCounts(n);
    CountedStep(f, g, b, n, c, sum);
  }

  lemma DecryptStep(f: Half, g: Half, b: Block, r: nat, n: nat, c: Block, sum: u32)
    requires 0 < n && r + n == 32 && sum == Sum(n) && c == Decrypted(f, g, b, r)
    ensures Minus(sum, DELTA) == Sum(n - 1)
    ensures Unround(f, g, c, Minus(sum, DELTA), sum) == Decrypted(f, g, b, r + 1)
  {
    BackStep(f, g, b, r, c);
    SumStep(n - 1);
  }

  lemma SumStep(n: nat)
    ensures Sum(n + 1) == Plus(Sum(n), DELTA) && Sum(n) == Minus(Sum(n + 1), DELTA)
  {
    PlusMinus(Sum(n), DELTA);
  }

  /** The loop of tea_encrypt, with a round counter. */
  method CountedEncrypt(f: Half, g: Half, src: Block) returns (dst: Block)
    ensures dst == Encrypted(f, g, src, 32)
  {
    var y: u32, z: u32, sum: u32 := src.y, src.z, 0;
    var n := 32;
    ghost var r: nat := 0;
    while n > 0
      invariant 0 <= n && r + n == 32 && sum == Sum(r)
      invariant Block(y, z) == Encrypted(f, g, src, r)
      decreases n
    {
      CountedStep(f, g, src, r, Block(y, z), sum);
      n, r := n - 1, r + 1;
      var before := sum;
      sum := Plus(sum, DELTA);
      y := Plus(y, f(z, before, sum));
      z := Plus(z, g(y, before, sum));
    }
    dst := Block(y, z);
  }

  /** The loop of tea_decrypt. */
  method CountedDecrypt(f: Half, g: Half, src: Block) returns (dst: Block)
    ensures dst == Decrypted(f, g, src, 32)
  {
    var n: nat := 32;
    SumCounts(n);
    var y: u32, z: u32, sum: u32 := src.y, src.z, LIMIT;
    ghost var r: nat := 0;
    while n > 0
      invariant r + n == 32 && sum == Sum(n)
      invariant Block(y, z) == Decrypted(f, g, src, r)
      decreases n
    {
      DecryptStep(f, g, src, r, n, Block(y, z), sum);
      var before := Minus(sum, DELTA);
      z := Minus(z, g(y, before, sum));
      y := Minus(y, f(z, before, sum));
      sum := before;
      n, r := n - 1, r + 1;
    }
    dst := Block(y, z);
  }

  /** The loop of xtea_encrypt and xeta_encrypt: it ends only when the sum meets the limit, and
      that is after exactly 32 rounds. */
  method SummedEncrypt(f: Half, g: Half, src: Block) returns (dst: Block, ghost rounds: nat)
    ensures rounds == 32 && dst == Encrypted(f, g, src, 32)
  {
    var y: u32, z: u32, sum: u32 := src.y, src.z, 0;
    rounds := 0;
    while sum != LIMIT
      invariant rounds <= 32 && sum == Sum(rounds)
      invariant Block(y, z) == Encrypted(f, g, src, rounds)
      decreases 32 - rounds
    {
      EncryptStep(f, g, src, rounds, Block(y, z), sum);
      var after := Plus(sum, DELTA);
      y := Plus(y, f(z, sum, after));
      z := Plus(z, g(y, sum, after));
      sum := after;
      rounds := rounds + 1;
    }
    SumCounts(rounds);
    dst := Block(y, z);
  }

  /** The loop of xtea_decrypt and xeta_decrypt: it ends only when the sum is back at 0, and that
      is after exactly 32 rounds. */
  method SummedDecrypt(f: Half, g: Half, src: Block) returns (dst: Block, ghost rounds: nat)
    ensures rounds == 32 && dst == Decrypted(f, g, src, 32)
  {
    ghost var n: nat := 32;
    SumCounts(n);
    var y: u32, z: u32, sum: u32 := src.y, src.z, LIMIT;
    rounds := 0;
    while sum != 0
      invariant rounds + n == 32 && sum == Sum(n)
      invariant Block(y, z) == Decrypted(f, g, src, rounds)
      decreases n
    {
      SumCounts(n);
      DecryptStep(f, g, src, rounds, n, Block(y, z), sum);
      var before := Minus(sum, DELTA);
      z := Minus(z, g(y, before, sum));
      y := Minus(y, f(z, before, sum));
      sum := before;
      n, rounds := n - 1, rounds + 1;
    }
    SumCounts(n);
    dst := Block(y, z);
  }

  method TeaEncrypt(k: Key, src: Block) returns (dst: Block)
    ensures dst == Encrypted(TeaY(k), TeaZ(k), src, 32)
  {
    dst := CountedEncrypt(TeaY(k), TeaZ(k), src);
  }

  method TeaDecrypt(k: Key, src: Block) returns (dst: Block)
    ensures dst == Decrypted(TeaY(k), TeaZ(k), src, 32)
  {
    dst := CountedDecrypt(TeaY(k), TeaZ(k), src);
  }

  method XteaEncrypt(k: Key, src: Block) returns (dst: Block)
    ensures dst == Encrypted(XteaY(k), XteaZ(k), src, 32)
  {
    ghost var rounds;
    dst, rounds := SummedEncrypt(XteaY(k), XteaZ(k), src);
  }

  method XteaDecrypt(k: Key, src: Block) returns (dst: Block)
    ensures dst == Decrypted(XteaY(k), XteaZ(k), src, 32)
  {
    ghost var rounds;
    dst, rounds := SummedDecrypt(XteaY(k), XteaZ(k), src);
  }

  method XetaEncrypt(k: Key, src: Block) returns (dst: Block)
    ensures dst == Encrypted(XetaY(k), XetaZ(k), src, 32)
  {
    ghost var rounds;
    dst, rounds := SummedEncrypt(XetaY(k), XetaZ(k), src);
  }

  method XetaDecrypt(k: Key, src: Block) returns (dst: Block)
    ensures dst == Decrypted(XetaY(k), XetaZ(k), src, 32)
  {
    ghost var rounds;
    dst, rounds := SummedDecrypt(XetaY(k), XetaZ(k), src);
  }

  /** tea_decrypt gives back what tea_encrypt was given. */
  method TeaRoundTrip(k: Key, src: Block) returns (cipher: Block, back: Block)
    ensures cipher == Encrypted(TeaY(k), TeaZ(k), src, 32) && back == src
  {
    cipher := TeaEncrypt(k, src);
    back := TeaDecrypt(k, cipher);
    FeistelRoundTrip(TeaY(k), TeaZ(k), src);
  }

  /** xtea_decrypt gives back what xtea_encrypt was given. */
  method XteaRoundTrip(k: Key, src: Block) returns (cipher: Block, back: Block)
    ensures cipher == Encrypted(XteaY(k), XteaZ(k), src, 32) && back == src
  {
    cipher := XteaEncrypt(k, src);
    back := XteaDecrypt(k, cipher);
    FeistelRoundTrip(XteaY(k), XteaZ(k), src);
  }

  /** xeta_decrypt gives back what xeta_encrypt was given. */
  method XetaRoundTrip(k: Key, src: Block) returns (cipher: Block, back: Block)
    ensures cipher == Encrypted(XetaY(k), XetaZ(k), src, 32) && back == src
  {
    cipher := XetaEncrypt(k, src);
    back := XetaDecrypt(k, cipher);
    FeistelRoundTrip(XetaY(k), XetaZ(k), src);
  }
}
