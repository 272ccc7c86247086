/** Known answers of the TEA family: the second vector of each cipher's tests, round by round. The
    values fix every shift, sum and key word of the half rounds, and the order of the halves. */
module TeaVectors {
  import opened Tea

  /** The key bytes 2b020568 06144976 775d0e26 6c287843 as little-endian words. */
  const KEY: Key := Key(0x6805022b, 0x76491406, 0x260e5d77, 0x4378286c)

  /** The text bytes 74657374 206d652e. */
  const TEXT: Block := Block(0x74736574, 0x2e656d20)

  /** Where the encryption of the text stands after `n` rounds. */
  ghost predicate At(f: Half, g: Half, n: nat, y: u32, z: u32, sum: u32) {
    Encrypted(f, g, TEXT, n) == Block(y, z) && Sum(n) == sum
  }

  lemma Begin(f: Half, g: Half, n: nat)
    requires n == 0
    ensures At(f, g, n, TEXT.y, TEXT.z, 0)
  {
  }

  /** One round, from the values of its two halves. */
  lemma Next(f: Half, g: Half, n: nat, y: u32, z: u32, s: u32, t: u32, y': u32, z': u32)
    requires At(f, g, n, y, z, s) && t == Plus(s, DELTA)
    requires Plus(y, f(z, s, t)) == y' && Plus(z, g(y', s, t)) == z'
    ensures At(f, g, n + 1, y', z', t)
  {
    SumStep(n);
    ForthStep(f, g, TEXT, n, Block(y, z));
  }

  /** One round of XTEA, with the key words that the sums choose. */
  lemma XteaNext(f: Half, g: Half, n: nat, y: u32, z: u32, s: u32, t: u32, lo: u32, hi: u32, y': u32, z': u32)
    requires f == XteaY(KEY) && g == XteaZ(KEY) && At(f, g, n, y, z, s) && t == Plus(s, DELTA)
    requires Low(KEY, s) == lo && High(KEY, t) == hi
    requires Plus(y, XteaMix(z, s, lo)) == y' && Plus(z, XteaMix(y', t, hi)) == z'
    ensures At(f, g, n + 1, y', z', t)
  {
    Next(f, g, n, y, z, s, t, y', z');
  }

  /** One round of XETA, with the key words that the sums choose. */
  lemma XetaNext(f: Half, g: Half, n: nat, y: u32, z: u32, s: u32, t: u32, lo: u32, hi: u32, y': u32, z': u32)
    requires f == XetaY(KEY) && g == XetaZ(KEY) && At(f, g, n, y, z, s) && t == Plus(s, DELTA)
    requires Low(KEY, s) == lo && High(KEY, t) == hi
    requires Plus(y, XetaMix(z, s, lo)) == y' && Plus(z, XetaMix(y', t, hi)) == z'
    ensures At(f, g, n + 1, y', z', t)
  {
    Next(f, g, n, y, z, s, t, y', z');
  }

  lemma TeaRounds1(f: Half, g: Half, n: nat)
    requires f == TeaY(KEY) && g == TeaZ(KEY) && At(f, g, n, 0x74736574, 0x2e656d20, 0x00000000)
    ensures At(f, g, n + 4, 0x6ffbf2d1, 0x6965c878, 0x78dde6e4)
  {
    Next(f, g, n, 0x74736574, 0x2e656d20, 0x00000000, 0x9e3779b9, 0x69ee7311, 0xb87d6b69);
    Next(f, g, n + 1, 0x69ee7311, 0xb87d6b69, 0x9e3779b9, 0x3c6ef372, 0xd1298c12, 0x37bb8148);
    Next(f, g, n + 2, 0xd1298c12, 0x37bb8148, 0x3c6ef372, 0xdaa66d2b, 0x5b0394da, 0xdd796d48);
    Next(f, g, n + 3, 0x5b0394da, 0xdd796d48, 0xdaa66d2b, 0x78dde6e4, 0x6ffbf2d1, 0x6965c878);
  }

  lemma TeaRounds2(f: Half, g: Half, n: nat)
    requires f == TeaY(KEY) && g == TeaZ(KEY) && At(f, g, n, 0x6ffbf2d1, 0x6965c878, 0x78dde6e4)
    ensures At(f, g, n + 4, 0xcbbdd8bb, 0x1e7c8bcb, 0xf1bbcdc8)
  {
    Next(f, g, n, 0x6ffbf2d1, 0x6965c878, 0x78dde6e4, 0x1715609d, 0x778ad5c8, 0xc095b900);
    Next(f, g, n + 1, 0x778ad5c8, 0xc095b900, 0x1715609d, 0xb54cda56, 0xf05a967b, 0x858001e9);
    Next(f, g, n + 2, 0xf05a967b, 0x858001e9, 0xb54cda56, 0x5384540f, 0x53cef7d1, 0x09383336);
    Next(f, g, n + 3, 0x53cef7d1, 0x09383336, 0x5384540f, 0xf1bbcdc8, 0xcbbdd8bb, 0x1e7c8bcb);
  }

  lemma TeaRounds3(f: Half, g: Half, n: nat)
    requires f == TeaY(KEY) && g == TeaZ(KEY) && At(f, g, n, 0xcbbdd8bb, 0x1e7c8bcb, 0xf1bbcdc8)
    ensures At(f, g, n + 4, 0x2b21f2a1, 0xf10c3b0e, 0x6a99b4ac)
  {
    Next(f, g, n, 0xcbbdd8bb, 0x1e7c8bcb, 0xf1bbcdc8, 0x8ff34781, 0x625c6eae, 0x1d8e8164);
    Next(f, g, n + 1, 0x625c6eae, 0x1d8e8164, 0x8ff34781, 0x2e2ac13a, 0xdebe4192, 0x7503ef87);
    Next(f, g, n + 2, 0xdebe4192, 0x7503ef87, 0x2e2ac13a, 0xcc623af3, 0x5f9324f5, 0xe7c52243);
    Next(f, g, n + 3, 0x5f9324f5, 0xe7c52243, 0xcc623af3, 0x6a99b4ac, 0x2b21f2a1, 0xf10c3b0e);
  }

  lemma TeaRounds4(f: Half, g: Half, n: nat)
    requires f == TeaY(KEY) && g == TeaZ(KEY) && At(f, g, n, 0x2b21f2a1, 0xf10c3b0e, 0x6a99b4ac)
    ensures At(f, g, n + 4, 0xf68e23af, 0x86dc27f9, 0xe3779b90)
  {
    Next(f, g, n, 0x2b21f2a1, 0xf10c3b0e, 0x6a99b4ac, 0x08d12e65, 0x27e6a247, 0xc1844743);
    Next(f, g, n + 1, 0x27e6a247, 0xc1844743, 0x08d12e65, 0xa708a81e, 0xbc7751c1, 0x892ba9e5);
    Next(f, g, n + 2, 0xbc7751c1, 0x892ba9e5, 0xa708a81e, 0x454021d7, 0x0abd6c53, 0x67026928);
    Next(f, g, n + 3, 0x0abd6c53, 0x67026928, 0x454021d7, 0xe3779b90, 0xf68e23af, 0x86dc27f9);
  }

  lemma TeaRounds5(f: Half, g: Half, n: nat)
    requires f == TeaY(KEY) && g == TeaZ(KEY) && At(f, g, n, 0xf68e23af, 0x86dc27f9, 0xe3779b90)
    ensures At(f, g, n + 4, 0x77c9dc2a, 0x66f3d9fe, 0x5c558274)
  {
    Next(f, g, n, 0xf68e23af, 0x86dc27f9, 0xe3779b90, 0x81af1549, 0x9dc16d6b, 0xdc0fad3d);
    Next(f, g, n + 1, 0x9dc16d6b, 0xdc0fad3d, 0x81af1549, 0x1fe68f02, 0x4be1e616, 0xa643a990);
    Next(f, g, n + 2, 0x4be1e616, 0xa643a990, 0x1fe68f02, 0xbe1e08bb, 0x1f06fe48, 0x356ed03a);
    Next(f, g, n + 3, 0x1f06fe48, 0x356ed03a, 0xbe1e08bb, 0x5c558274, 0x77c9dc2a, 0x66f3d9fe);
  }

  lemma TeaRounds6(f: Half, g: Half, n: nat)
    requires f == TeaY(KEY) && g == TeaZ(KEY) && At(f, g, n, 0x77c9dc2a, 0x66f3d9fe, 0x5c558274)
    ensures At(f, g, n + 4, 0xe64fc38d, 0xcfb120e9, 0xd5336958)
  {
    Next(f, g, n, 0x77c9dc2a, 0x66f3d9fe, 0x5c558274, 0xfa8cfc2d, 0x470ca31f, 0xf9e577ad);
    Next(f, g, n + 1, 0x470ca31f, 0xf9e577ad, 0xfa8cfc2d, 0x98c475e6, 0x31fa51ca, 0xc3efbf0a);
    Next(f, g, n + 2, 0x31fa51ca, 0xc3efbf0a, 0x98c475e6, 0x36fbef9f, 0x537e1f66, 0x558e04bf);
    Next(f, g, n + 3, 0x537e1f66, 0x558e04bf, 0x36fbef9f, 0xd5336958, 0xe64fc38d, 0xcfb120e9);
  }

  lemma TeaRounds7(f: Half, g: Half, n: nat)
    requires f == TeaY(KEY) && g == TeaZ(KEY) && At(f, g, n, 0xe64fc38d, 0xcfb120e9, 0xd5336958)
    ensures At(f, g, n + 4, 0xa7868702, 0x8e5b4ec0, 0x4e11503c)
  {
    Next(f, g, n, 0xe64fc38d, 0xcfb120e9, 0xd5336958, 0x736ae311, 0x431d51d9, 0x74ab7e00);
    Next(f, g, n + 1, 0x431d51d9, 0x74ab7e00, 0x736ae311, 0x11a25cca, 0x903ca8f0, 0x44a9627e);
    Next(f, g, n + 2, 0x903ca8f0, 0x44a9627e, 0x11a25cca, 0xafd9d683, 0xceb2f503, 0x6b0608b3);
    Next(f, g, n + 3, 0xceb2f503, 0x6b0608b3, 0xafd9d683, 0x4e11503c, 0xa7868702, 0x8e5b4ec0);
  }

  lemma TeaRounds8(f: Half, g: Half, n: nat)
    requires f == TeaY(KEY) && g == TeaZ(KEY) && At(f, g, n, 0xa7868702, 0x8e5b4ec0, 0x4e11503c)
    ensures At(f, g, n + 4, 0x6a2a5d77, 0x0992cef6, 0xc6ef3720)
  {
    Next(f, g, n, 0xa7868702, 0x8e5b4ec0, 0x4e11503c, 0xec48c9f5, 0xf52c9fe4, 0x60e80dc5);
    Next(f, g, n + 1, 0xf52c9fe4, 0x60e80dc5, 0xec48c9f5, 0x8a8043ae, 0xd9ea7b60, 0x4b83de03);
    Next(f, g, n + 2, 0xd9ea7b60, 0x4b83de03, 0x8a8043ae, 0x28b7bd67, 0x06c6c727, 0x4a2df3cf);
    Next(f, g, n + 3, 0x06c6c727, 0x4a2df3cf, 0x28b7bd67, 0xc6ef3720, 0x6a2a5d77, 0x0992cef6);
  }

  /** The answer of the TEA test: bytes 775d2a6a f6ce9209. */
  lemma TeaAnswer(f: Half, g: Half, n: nat)
    requires f == TeaY(KEY) && g == TeaZ(KEY) && n == 32
    ensures Encrypted(f, g, TEXT, n) == Block(0x6a2a5d77, 0x0992cef6)
  {
    var i := n - 32;
    Begin(f, g, i);
    TeaRounds1(f, g, i);
    TeaRounds2(f, g, i + 4);
    TeaRounds3(f, g, i + 8);
    TeaRounds4(f, g, i + 12);
    TeaRounds5(f, g, i + 16);
    TeaRounds6(f, g, i + 20);
    TeaRounds7(f, g, i + 24);
    TeaRounds8(f, g, i + 28);
  }

  lemma XteaRounds1(f: Half, g: Half, n: nat)
    requires f == XteaY(KEY) && g == XteaZ(KEY) && At(f, g, n, 0x74736574, 0x2e656d20, 0x00000000)
    ensures At(f, g, n + 4, 0x884f8cec, 0x278e02fe, 0x78dde6e4)
  {
    XteaNext(f, g, n, 0x74736574, 0x2e656d20, 0x00000000, 0x9e3779b9, 0x6805022b, 0x4378286c, 0xf201ca16, 0x26874883);
    XteaNext(f, g, n + 1, 0xf201ca16, 0x26874883, 0x9e3779b9, 0x3c6ef372, 0x76491406, 0x260e5d77, 0x8d49415e, 0x62c23a24);
    XteaNext(f, g, n + 2, 0x8d49415e, 0x62c23a24, 0x3c6ef372, 0xdaa66d2b, 0x260e5d77, 0x76491406, 0x80d3feba, 0x3da52c62);
    XteaNext(f, g, n + 3, 0x80d3feba, 0x3da52c62, 0xdaa66d2b, 0x78dde6e4, 0x4378286c, 0x6805022b, 0x884f8cec, 0x278e02fe);
  }

  lemma XteaRounds2(f: Half, g: Half, n: nat)
    requires f == XteaY(KEY) && g == XteaZ(KEY) && At(f, g, n, 0x884f8cec, 0x278e02fe, 0x78dde6e4)
    ensures At(f, g, n + 4, 0xfcb0dacc, 0xb1c37ad7, 0xf1bbcdc8)
  {
    XteaNext(f, g, n, 0x884f8cec, 0x278e02fe, 0x78dde6e4, 0x1715609d, 0x6805022b, 0x6805022b, 0xc9d818e6, 0x424b0843);
    XteaNext(f, g, n + 1, 0xc9d818e6, 0x424b0843, 0x1715609d, 0xb54cda56, 0x76491406, 0x4378286c, 0xaf8ba8fc, 0x97e28184);
    XteaNext(f, g, n + 2, 0xaf8ba8fc, 0x97e28184, 0xb54cda56, 0x5384540f, 0x260e5d77, 0x260e5d77, 0x78ae6319, 0x102595ab);
    XteaNext(f, g, n + 3, 0x78ae6319, 0x102595ab, 0x5384540f, 0xf1bbcdc8, 0x4378286c, 0x76491406, 0xfcb0dacc, 0xb1c37ad7);
  }

  lemma XteaRounds3(f: Half, g: Half, n: nat)
    requires f == XteaY(KEY) && g == XteaZ(KEY) && At(f, g, n, 0xfcb0dacc, 0xb1c37ad7, 0xf1bbcdc8)
    ensures At(f, g, n + 4, 0x3c10741f, 0x03c76db8, 0x6a99b4ac)
  {
    XteaNext(f, g, n, 0xfcb0dacc, 0xb1c37ad7, 0xf1bbcdc8, 0x8ff34781, 0x6805022b, 0x6805022b, 0x8f6ed95a, 0x27c1703f);
    XteaNext(f, g, n + 1, 0x8f6ed95a, 0x27c1703f, 0x8ff34781, 0x2e2ac13a, 0x76491406, 0x6805022b, 0x3244fc91, 0xf5ce991f);
    XteaNext(f, g, n + 2, 0x3244fc91, 0xf5ce991f, 0x2e2ac13a, 0xcc623af3, 0x260e5d77, 0x4378286c, 0x37745d77, 0x9777496c);
    XteaNext(f, g, n + 3, 0x37745d77, 0x9777496c, 0xcc623af3, 0x6a99b4ac, 0x4378286c, 0x260e5d77, 0x3c10741f, 0x03c76db8);
  }

  lemma XteaRounds4(f: Half, g: Half, n: nat)
    requires f == XteaY(KEY) && g == XteaZ(KEY) && At(f, g, n, 0x3c10741f, 0x03c76db8, 0x6a99b4ac)
    ensures At(f, g, n + 4, 0xbe6fb29f, 0xd02f022b, 0xe3779b90)
  {
    XteaNext(f, g, n, 0x3c10741f, 0x03c76db8, 0x6a99b4ac, 0x08d12e65, 0x6805022b, 0x76491406, 0xcebf6c91, 0xc7204b26);
    XteaNext(f, g, n + 1, 0xcebf6c91, 0xc7204b26, 0x08d12e65, 0xa708a81e, 0x76491406, 0x76491406, 0x130725c5, 0x25c0828d);
    XteaNext(f, g, n + 2, 0x130725c5, 0x25c0828d, 0xa708a81e, 0x454021d7, 0x260e5d77, 0x6805022b, 0x62f8d089, 0x48973d2c);
    XteaNext(f, g, n + 3, 0x62f8d089, 0x48973d2c, 0x454021d7, 0xe3779b90, 0x4378286c, 0x4378286c, 0xbe6fb29f, 0xd02f022b);
  }

  lemma XteaRounds5(f: Half, g: Half, n: nat)
    requires f == XteaY(KEY) && g == XteaZ(KEY) && At(f, g, n, 0xbe6fb29f, 0xd02f022b, 0xe3779b90)
    ensures At(f, g, n + 4, 0x78252a28, 0x51fd028c, 0x5c558274)
  {
    XteaNext(f, g, n, 0xbe6fb29f, 0xd02f022b, 0xe3779b90, 0x81af1549, 0x6805022b, 0x260e5d77, 0x5e4c7416, 0xb36be641);
    XteaNext(f, g, n + 1, 0x5e4c7416, 0xb36be641, 0x81af1549, 0x1fe68f02, 0x76491406, 0x76491406, 0x6fb57c42, 0xa55c354d);
    XteaNext(f, g, n + 2, 0x6fb57c42, 0xa55c354d, 0x1fe68f02, 0xbe1e08bb, 0x260e5d77, 0x76491406, 0x23668300, 0x141ad126);
    XteaNext(f, g, n + 3, 0x23668300, 0x141ad126, 0xbe1e08bb, 0x5c558274, 0x4378286c, 0x6805022b, 0x78252a28, 0x51fd028c);
  }

  lemma XteaRounds6(f: Half, g: Half, n: nat)
    requires f == XteaY(KEY) && g == XteaZ(KEY) && At(f, g, n, 0x78252a28, 0x51fd028c, 0x5c558274)
    ensures At(f, g, n + 4, 0x2f48c0b6, 0x43437baf, 0xd5336958)
  {
    XteaNext(f, g, n, 0x78252a28, 0x51fd028c, 0x5c558274, 0xfa8cfc2d, 0x6805022b, 0x4378286c, 0x232b7227, 0xbad9cb1d);
    XteaNext(f, g, n + 1, 0x232b7227, 0xbad9cb1d, 0xfa8cfc2d, 0x98c475e6, 0x76491406, 0x260e5d77, 0x371dccbd, 0xd42cec4c);
    XteaNext(f, g, n + 2, 0x371dccbd, 0xd42cec4c, 0x98c475e6, 0x36fbef9f, 0x260e5d77, 0x76491406, 0xdd6c2970, 0xd500086a);
    XteaNext(f, g, n + 3, 0xdd6c2970, 0xd500086a, 0x36fbef9f, 0xd5336958, 0x4378286c, 0x76491406, 0x2f48c0b6, 0x43437baf);
  }

  lemma XteaRounds7(f: Half, g: Half, n: nat)
    requires f == XteaY(KEY) && g == XteaZ(KEY) && At(f, g, n, 0x2f48c0b6, 0x43437baf, 0xd5336958)
    ensures At(f, g, n + 4, 0xb2cfcef4, 0xbe4c135e, 0x4e11503c)
  {
    XteaNext(f, g, n, 0x2f48c0b6, 0x43437baf, 0xd5336958, 0x736ae311, 0x6805022b, 0x6805022b, 0x73923815, 0xb8822948);
    XteaNext(f, g, n + 1, 0x73923815, 0xb8822948, 0x736ae311, 0x11a25cca, 0x76491406, 0x4378286c, 0x236d901a, 0xc6b7a154);
    XteaNext(f, g, n + 2, 0x236d901a, 0xc6b7a154, 0x11a25cca, 0xafd9d683, 0x260e5d77, 0x260e5d77, 0x272583f9, 0x162645c6);
    XteaNext(f, g, n + 3, 0x272583f9, 0x162645c6, 0xafd9d683, 0x4e11503c, 0x4378286c, 0x260e5d77, 0xb2cfcef4, 0xbe4c135e);
  }

  lemma XteaRounds8(f: Half, g: Half, n: nat)
    requires f == XteaY(KEY) && g == XteaZ(KEY) && At(f, g, n, 0xb2cfcef4, 0xbe4c135e, 0x4e11503c)
    ensures At(f, g, n + 4, 0x96c8eb94, 0xa8496a84, 0xc6ef3720)
  {
    XteaNext(f, g, n, 0xb2cfcef4, 0xbe4c135e, 0x4e11503c, 0xec48c9f5, 0x6805022b, 0x76491406, 0xdc3909b3, 0x81879429);
    XteaNext(f, g, n + 1, 0xdc3909b3, 0x81879429, 0xec48c9f5, 0x8a8043ae, 0x76491406, 0x6805022b, 0xdba5d954, 0xec2b6530);
    XteaNext(f, g, n + 2, 0xdba5d954, 0xec2b6530, 0x8a8043ae, 0x28b7bd67, 0x260e5d77, 0x4378286c, 0xde32a5d0, 0x944ced5d);
    XteaNext(f, g, n + 3, 0xde32a5d0, 0x944ced5d, 0x28b7bd67, 0xc6ef3720, 0x4378286c, 0x260e5d77, 0x96c8eb94, 0xa8496a84);
  }

  /** The answer of the XTEA test: bytes 94ebc896 846a49a8. */
  lemma XteaAnswer(f: Half, g: Half, n: nat)
    requires f == XteaY(KEY) && g == XteaZ(KEY) && n == 32
    ensures Encrypted(f, g, TEXT, n) == Block(0x96c8eb94, 0xa8496a84)
  {
    var i := n - 32;
    Begin(f, g, i);
    XteaRounds1(f, g, i);
    XteaRounds2(f, g, i + 4);
    XteaRounds3(f, g, i + 8);
    XteaRounds4(f, g, i + 12);
    XteaRounds5(f, g, i + 16);
    XteaRounds6(f, g, i + 20);
    XteaRounds7(f, g, i + 24);
    XteaRounds8(f, g, i + 28);
  }

  lemma XetaRounds1(f: Half, g: Half, n: nat)
    requires f == XetaY(KEY) && g == XetaZ(KEY) && At(f, g, n, 0x74736574, 0x2e656d20, 0x00000000)
    ensures At(f, g, n + 4, 0xac0d9a51, 0x20c2c166, 0x78dde6e4)
  {
    XetaNext(f, g, n, 0x74736574, 0x2e656d20, 0x00000000, 0x9e3779b9, 0x6805022b, 0x4378286c, 0xf203ce28, 0x05bf4a0e);
    XetaNext(f, g, n + 1, 0xf203ce28, 0x05bf4a0e, 0x9e3779b9, 0x3c6ef372, 0x76491406, 0x260e5d77, 0x5fae7095, 0x87a8a640);
    XetaNext(f, g, n + 2, 0x5fae7095, 0x87a8a640, 0x3c6ef372, 0xdaa66d2b, 0x260e5d77, 0x76491406, 0xc03a4470, 0x1e3378c4);
    XetaNext(f, g, n + 3, 0xc03a4470, 0x1e3378c4, 0xdaa66d2b, 0x78dde6e4, 0x4378286c, 0x6805022b, 0xac0d9a51, 0x20c2c166);
  }

  lemma XetaRounds2(f: Half, g: Half, n: nat)
    requires f == XetaY(KEY) && g == XetaZ(KEY) && At(f, g, n, 0xac0d9a51, 0x20c2c166, 0x78dde6e4)
    ensures At(f, g, n + 4, 0x4929beaa, 0x936ba573, 0xf1bbcdc8)
  {
    XetaNext(f, g, n, 0xac0d9a51, 0x20c2c166, 0x78dde6e4, 0x1715609d, 0x6805022b, 0x6805022b, 0x795bc469, 0x8d8d0138);
    XetaNext(f, g, n + 1, 0x795bc469, 0x8d8d0138, 0x1715609d, 0xb54cda56, 0x76491406, 0x4378286c, 0x66f9b59d, 0x11672deb);
    XetaNext(f, g, n + 2, 0x66f9b59d, 0x11672deb, 0xb54cda56, 0x5384540f, 0x260e5d77, 0x260e5d77, 0x482df2b0, 0xd3bd76b6);
    XetaNext(f, g, n + 3, 0x482df2b0, 0xd3bd76b6, 0x5384540f, 0xf1bbcdc8, 0x4378286c, 0x76491406, 0x4929beaa, 0x936ba573);
  }

  lemma XetaRounds3(f: Half, g: Half, n: nat)
    requires f == XetaY(KEY) && g == XetaZ(KEY) && At(f, g, n, 0x4929beaa, 0x936ba573, 0xf1bbcdc8)
    ensures At(f, g, n + 4, 0xa654c25b, 0xf220fef8, 0x6a99b4ac)
  {
    XetaNext(f, g, n, 0x4929beaa, 0x936ba573, 0xf1bbcdc8, 0x8ff34781, 0x6805022b, 0x6805022b, 0x462033ab, 0x257656f5);
    XetaNext(f, g, n + 1, 0x462033ab, 0x257656f5, 0x8ff34781, 0x2e2ac13a, 0x76491406, 0x6805022b, 0xbd3d370c, 0xf6cde8ce);
    XetaNext(f, g, n + 2, 0xbd3d370c, 0xf6cde8ce, 0x2e2ac13a, 0xcc623af3, 0x260e5d77, 0x4378286c, 0x279ba21d, 0x9ec6a6e8);
    XetaNext(f, g, n + 3, 0x279ba21d, 0x9ec6a6e8, 0xcc623af3, 0x6a99b4ac, 0x4378286c, 0x260e5d77, 0xa654c25b, 0xf220fef8);
  }

  lemma XetaRounds4(f: Half, g: Half, n: nat)
    requires f == XetaY(KEY) && g == XetaZ(KEY) && At(f, g, n, 0xa654c25b, 0xf220fef8, 0x6a99b4ac)
    ensures At(f, g, n + 4, 0x7e820283, 0x8926410d, 0xe3779b90)
  {
    XetaNext(f, g, n, 0xa654c25b, 0xf220fef8, 0x6a99b4ac, 0x08d12e65, 0x6805022b, 0x76491406, 0xccb1f751, 0xfa45e6dc);
    XetaNext(f, g, n + 1, 0xccb1f751, 0xfa45e6dc, 0x08d12e65, 0xa708a81e, 0x76491406, 0x76491406, 0xd91c1706, 0x85ad4ad2);
    XetaNext(f, g, n + 2, 0xd91c1706, 0x85ad4ad2, 0xa708a81e, 0x454021d7, 0x260e5d77, 0x6805022b, 0x80ca1ebf, 0xbbe4476a);
    XetaNext(f, g, n + 3, 0x80ca1ebf, 0xbbe4476a, 0x454021d7, 0xe3779b90, 0x4378286c, 0x4378286c, 0x7e820283, 0x8926410d);
  }

  lemma XetaRounds5(f: Half, g: Half, n: nat)
    requires f == XetaY(KEY) && g == XetaZ(KEY) && At(f, g, n, 0x7e820283, 0x8926410d, 0xe3779b90)
    ensures At(f, g, n + 4, 0xbeede398, 0x0332838e, 0x5c558274)
  {
    XetaNext(f, g, n, 0x7e820283, 0x8926410d, 0xe3779b90, 0x81af1549, 0x6805022b, 0x260e5d77, 0xe7060223, 0x8d35c80f);
    XetaNext(f, g, n + 1, 0xe7060223, 0x8d35c80f, 0x81af1549, 0x1fe68f02, 0x76491406, 0x76491406, 0x411f221f, 0x76736212);
    XetaNext(f, g, n + 2, 0x411f221f, 0x76736212, 0x1fe68f02, 0xbe1e08bb, 0x260e5d77, 0x76491406, 0x354926d6, 0xcd4bc8db);
    XetaNext(f, g, n + 3, 0x354926d6, 0xcd4bc8db, 0xbe1e08bb, 0x5c558274, 0x4378286c, 0x6805022b, 0xbeede398, 0x0332838e);
  }

  lemma XetaRounds6(f: Half, g: Half, n: nat)
    requires f == XetaY(KEY) && g == XetaZ(KEY) && At(f, g, n, 0xbeede398, 0x0332838e, 0x5c558274)
    ensures At(f, g, n + 4, 0xaa1b54de, 0x3fc7c221, 0xd5336958)
  {
    XetaNext(f, g, n, 0xbeede398, 0x0332838e, 0x5c558274, 0xfa8cfc2d, 0x6805022b, 0x4378286c, 0xb98b94b9, 0x27272bc3);
    XetaNext(f, g, n + 1, 0xb98b94b9, 0x27272bc3, 0xfa8cfc2d, 0x98c475e6, 0x76491406, 0x260e5d77, 0x80cc061b, 0x6e03feb7);
    XetaNext(f, g, n + 2, 0x80cc061b, 0x6e03feb7, 0x98c475e6, 0x36fbef9f, 0x260e5d77, 0x76491406, 0x80f1e368, 0xa570d94f);
    XetaNext(f, g, n + 3, 0x80f1e368, 0xa570d94f, 0x36fbef9f, 0xd5336958, 0x4378286c, 0x76491406, 0xaa1b54de, 0x3fc7c221);
  }

  lemma XetaRounds7(f: Half, g: Half, n: nat)
    requires f == XetaY(KEY) && g == XetaZ(KEY) && At(f, g, n, 0xaa1b54de, 0x3fc7c221, 0xd5336958)
    ensures At(f, g, n + 4, 0x459159cd, 0xce9aa313, 0x4e11503c)
  {
    XetaNext(f, g, n, 0xaa1b54de, 0x3fc7c221, 0xd5336958, 0x736ae311, 0x6805022b, 0x6805022b, 0xfa971e83, 0xe07012a2);
    XetaNext(f, g, n + 1, 0xfa971e83, 0xe07012a2, 0x736ae311, 0x11a25cca, 0x76491406, 0x4378286c, 0x03fdcef1, 0x760aceb0);
    XetaNext(f, g, n + 2, 0x03fdcef1, 0x760aceb0, 0x11a25cca, 0xafd9d683, 0x260e5d77, 0x260e5d77, 0xf4d17c57, 0x41d3258d);
    XetaNext(f, g, n + 3, 0xf4d17c57, 0x41d3258d, 0xafd9d683, 0x4e11503c, 0x4378286c, 0x260e5d77, 0x459159cd, 0xce9aa313);
  }

  lemma XetaRounds8(f: Half, g: Half, n: nat)
    requires f == XetaY(KEY) && g == XetaZ(KEY) && At(f, g, n, 0x459159cd, 0xce9aa313, 0x4e11503c)
    ensures At(f, g, n + 4, 0x35eb3e82, 0xc3d9dddc, 0xc6ef3720)
  {
    XetaNext(f, g, n, 0x459159cd, 0xce9aa313, 0x4e11503c, 0xec48c9f5, 0x6805022b, 0x76491406, 0x1e01334f, 0x1810ef3d);
    XetaNext(f, g, n + 1, 0x1e01334f, 0x1810ef3d, 0xec48c9f5, 0x8a8043ae, 0x76491406, 0x6805022b, 0x0a70e2c6, 0xa8643e46);
    XetaNext(f, g, n + 2, 0x0a70e2c6, 0xa8643e46, 0x8a8043ae, 0x28b7bd67, 0x260e5d77, 0x4378286c, 0xd66483b7, 0x4baac4ef);
    XetaNext(f, g, n + 3, 0xd66483b7, 0x4baac4ef, 0x28b7bd67, 0xc6ef3720, 0x4378286c, 0x260e5d77, 0x35eb3e82, 0xc3d9dddc);
  }

  /** The answer of the XETA test: bytes 823eeb35 dcddd9c3. */
  lemma XetaAnswer(f: Half, g: Half, n: nat)
    requires f == XetaY(KEY) && g == XetaZ(KEY) && n == 32
    ensures Encrypted(f, g, TEXT, n) == Block(0x35eb3e82, 0xc3d9dddc)
  {
    var i := n - 32;
    Begin(f, g, i);
    XetaRounds1(f, g, i);
    XetaRounds2(f, g, i + 4);
    XetaRounds3(f, g, i + 8);
    XetaRounds4(f, g, i + 12);
    XetaRounds5(f, g, i + 16);
    XetaRounds6(f, g, i + 20);
    XetaRounds7(f, g, i + 24);
    XetaRounds8(f, g, i + 28);
  }

  /** tea_encrypt gives that answer. */
  method TeaVector(k: Key, src: Block) returns (dst: Block)
    requires k == KEY && src == TEXT
    ensures dst == Block(0x6a2a5d77, 0x0992cef6)
  {
    TeaAnswer(TeaY(k), TeaZ(k), 32);
    dst := TeaEncrypt(k, src);
  }

  /** xtea_encrypt gives that answer. */
  method XteaVector(k: Key, src: Block) returns (dst: Block)
    requires k == KEY && src == TEXT
    ensures dst == Block(0x96c8eb94, 0xa8496a84)
  {
    XteaAnswer(XteaY(k), XteaZ(k), 32);
    dst := XteaEncrypt(k, src);
  }

  /** xeta_encrypt gives that answer. */
  method XetaVector(k: Key, src: Block) returns (dst: Block)
    requires k == KEY && src == TEXT
    ensures dst == Block(0x35eb3e82, 0xc3d9dddc)
  {
    XetaAnswer(XetaY(k), XetaZ(k), 32);
    dst := XetaEncrypt(k, src);
  }
}
