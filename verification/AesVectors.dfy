/**
 * Published values of AES: the S-box of figure 7 of FIPS 197, the constants and the key expansion of
 * section 5.2, and the first example vector of appendix C, which the crypto layer's own tests use.
 */
module AesVectors {
  import opened Gf256
  import opened RoundChain
  import opened AesSpec
  import opened AesWords
  import opened AesTables
  import opened AesKeys
  import opened Aes

  // ---------------------------------------------------------------- figure 7

  type Box = bv8 -> bv8

  predicate Line0(s: Box) {
    && s(0x00) == 0x63 && s(0x01) == 0x7c && s(0x02) == 0x77 && s(0x03) == 0x7b
    && s(0x04) == 0xf2 && s(0x05) == 0x6b && s(0x06) == 0x6f && s(0x07) == 0xc5
    && s(0x08) == 0x30 && s(0x09) == 0x01 && s(0x0a) == 0x67 && s(0x0b) == 0x2b
    && s(0x0c) == 0xfe && s(0x0d) == 0xd7 && s(0x0e) == 0xab && s(0x0f) == 0x76
  }

  predicate Line1(s: Box) {
    && s(0x10) == 0xca && s(0x11) == 0x82 && s(0x12) == 0xc9 && s(0x13) == 0x7d
    && s(0x14) == 0xfa && s(0x15) == 0x59 && s(0x16) == 0x47 && s(0x17) == 0xf0
    && s(0x18) == 0xad && s(0x19) == 0xd4 && s(0x1a) == 0xa2 && s(0x1b) == 0xaf
    && s(0x1c) == 0x9c && s(0x1d) == 0xa4 && s(0x1e) == 0x72 && s(0x1f) == 0xc0
  }

  predicate Line2(s: Box) {
    && s(0x20) == 0xb7 && s(0x21) == 0xfd && s(0x22) == 0x93 && s(0x23) == 0x26
    && s(0x24) == 0x36 && s(0x25) == 0x3f && s(0x26) == 0xf7 && s(0x27) == 0xcc
    && s(0x28) == 0x34 && s(0x29) == 0xa5 && s(0x2a) == 0xe5 && s(0x2b) == 0xf1
    && s(0x2c) == 0x71 && s(0x2d) == 0xd8 && s(0x2e) == 0x31 && s(0x2f) == 0x15
  }

  predicate Line3(s: Box) {
    && s(0x30) == 0x04 && s(0x31) == 0xc7 && s(0x32) == 0x23 && s(0x33) == 0xc3
    && s(0x34) == 0x18 && s(0x35) == 0x96 && s(0x36) == 0x05 && s(0x37) == 0x9a
    && s(0x38) == 0x07 && s(0x39) == 0x12 && s(0x3a) == 0x80 && s(0x3b) == 0xe2
    && s(0x3c) == 0xeb && s(0x3d) == 0x27 && s(0x3e) == 0xb2 && s(0x3f) == 0x75
  }

  predicate Line4(s: Box) {
    && s(0x40) == 0x09 && s(0x41) == 0x83 && s(0x42) == 0x2c && s(0x43) == 0x1a
    && s(0x44) == 0x1b && s(0x45) == 0x6e && s(0x46) == 0x5a && s(0x47) == 0xa0
    && s(0x48) == 0x52 && s(0x49) == 0x3b && s(0x4a) == 0xd6 && s(0x4b) == 0xb3
    && s(0x4c) == 0x29 && s(0x4d) == 0xe3 && s(0x4e) == 0x2f && s(0x4f) == 0x84
  }

  predicate Line5(s: Box) {
    && s(0x50) == 0x53 && s(0x51) == 0xd1 && s(0x52) == 0x00 && s(0x53) == 0xed
    && s(0x54) == 0x20 && s(0x55) == 0xfc && s(0x56) == 0xb1 && s(0x57) == 0x5b
    && s(0x58) == 0x6a && s(0x59) == 0xcb && s(0x5a) == 0xbe && s(0x5b) == 0x39
    && s(0x5c) == 0x4a && s(0x5d) == 0x4c && s(0x5e) == 0x58 && s(0x5f) == 0xcf
  }

  predicate Line6(s: Box) {
    && s(0x60) == 0xd0 && s(0x61) == 0xef && s(0x62) == 0xaa && s(0x63) == 0xfb
    && s(0x64) == 0x43 && s(0x65) == 0x4d && s(0x66) == 0x33 && s(0x67) == 0x85
    && s(0x68) == 0x45 && s(0x69) == 0xf9 && s(0x6a) == 0x02 && s(0x6b) == 0x7f
    && s(0x6c) == 0x50 && s(0x6d) == 0x3c && s(0x6e) == 0x9f && s(0x6f) == 0xa8
  }

  predicate Line7(s: Box) {
    && s(0x70) == 0x51 && s(0x71) == 0xa3 && s(0x72) == 0x40 && s(0x73) == 0x8f
    && s(0x74) == 0x92 && s(0x75) == 0x9d && s(0x76) == 0x38 && s(0x77) == 0xf5
    && s(0x78) == 0xbc && s(0x79) == 0xb6 && s(0x7a) == 0xda && s(0x7b) == 0x21
    && s(0x7c) == 0x10 && s(0x7d) == 0xff && s(0x7e) == 0xf3 && s(0x7f) == 0xd2
  }

  predicate Line8(s: Box) {
    && s(0x80) == 0xcd && s(0x81) == 0x0c && s(0x82) == 0x13 && s(0x83) == 0xec
    && s(0x84) == 0x5f && s(0x85) == 0x97 && s(0x86) == 0x44 && s(0x87) == 0x17
    && s(0x88) == 0xc4 && s(0x89) == 0xa7 && s(0x8a) == 0x7e && s(0x8b) == 0x3d
    && s(0x8c) == 0x64 && s(0x8d) == 0x5d && s(0x8e) == 0x19 && s(0x8f) == 0x73
  }

  predicate Line9(s: Box) {
    && s(0x90) == 0x60 && s(0x91) == 0x81 && s(0x92) == 0x4f && s(0x93) == 0xdc
    && s(0x94) == 0x22 && s(0x95) == 0x2a && s(0x96) == 0x90 && s(0x97) == 0x88
    && s(0x98) == 0x46 && s(0x99) == 0xee && s(0x9a) == 0xb8 && s(0x9b) == 0x14
    && s(0x9c) == 0xde && s(0x9d) == 0x5e && s(0x9e) == 0x0b && s(0x9f) == 0xdb
  }

  predicate Linea(s: Box) {
    && s(0xa0) == 0xe0 && s(0xa1) == 0x32 && s(0xa2) == 0x3a && s(0xa3) == 0x0a
    && s(0xa4) == 0x49 && s(0xa5) == 0x06 && s(0xa6) == 0x24 && s(0xa7) == 0x5c
    && s(0xa8) == 0xc2 && s(0xa9) == 0xd3 && s(0xaa) == 0xac && s(0xab) == 0x62
    && s(0xac) == 0x91 && s(0xad) == 0x95 && s(0xae) == 0xe4 && s(0xaf) == 0x79
  }

  predicate Lineb(s: Box) {
    && s(0xb0) == 0xe7 && s(0xb1) == 0xc8 && s(0xb2) == 0x37 && s(0xb3) == 0x6d
    && s(0xb4) == 0x8d && s(0xb5) == 0xd5 && s(0xb6) == 0x4e && s(0xb7) == 0xa9
    && s(0xb8) == 0x6c && s(0xb9) == 0x56 && s(0xba) == 0xf4 && s(0xbb) == 0xea
    && s(0xbc) == 0x65 && s(0xbd) == 0x7a && s(0xbe) == 0xae && s(0xbf) == 0x08
  }

  predicate Linec(s: Box) {
    && s(0xc0) == 0xba && s(0xc1) == 0x78 && s(0xc2) == 0x25 && s(0xc3) == 0x2e
    && s(0xc4) == 0x1c && s(0xc5) == 0xa6 && s(0xc6) == 0xb4 && s(0xc7) == 0xc6
    && s(0xc8) == 0xe8 && s(0xc9) == 0xdd && s(0xca) == 0x74 && s(0xcb) == 0x1f
    && s(0xcc) == 0x4b && s(0xcd) == 0xbd && s(0xce) == 0x8b && s(0xcf) == 0x8a
  }

  predicate Lined(s: Box) {
    && s(0xd0) == 0x70 && s(0xd1) == 0x3e && s(0xd2) == 0xb5 && s(0xd3) == 0x66
    && s(0xd4) == 0x48 && s(0xd5) == 0x03 && s(0xd6) == 0xf6 && s(0xd7) == 0x0e
    && s(0xd8) == 0x61 && s(0xd9) == 0x35 && s(0xda) == 0x57 && s(0xdb) == 0xb9
    && s(0xdc) == 0x86 && s(0xdd) == 0xc1 && s(0xde) == 0x1d && s(0xdf) == 0x9e
  }

  predicate Linee(s: Box) {
    && s(0xe0) == 0xe1 && s(0xe1) == 0xf8 && s(0xe2) == 0x98 && s(0xe3) == 0x11
    && s(0xe4) == 0x69 && s(0xe5) == 0xd9 && s(0xe6) == 0x8e && s(0xe7) == 0x94
    && s(0xe8) == 0x9b && s(0xe9) == 0x1e && s(0xea) == 0x87 && s(0xeb) == 0xe9
    && s(0xec) == 0xce && s(0xed) == 0x55 && s(0xee) == 0x28 && s(0xef) == 0xdf
  }

  predicate Linef(s: Box) {
    && s(0xf0) == 0x8c && s(0xf1) == 0xa1 && s(0xf2) == 0x89 && s(0xf3) == 0x0d
    && s(0xf4) == 0xbf && s(0xf5) == 0xe6 && s(0xf6) == 0x42 && s(0xf7) == 0x68
    && s(0xf8) == 0x41 && s(0xf9) == 0x99 && s(0xfa) == 0x2d && s(0xfb) == 0x0f
    && s(0xfc) == 0xb0 && s(0xfd) == 0x54 && s(0xfe) == 0xbb && s(0xff) == 0x16
  }

  /** The S-box table of figure 7. */
  predicate Figure7(s: Box) {
    && Line0(s) && Line1(s) && Line2(s) && Line3(s) && Line4(s) && Line5(s) && Line6(s) && Line7(s)
    && Line8(s) && Line9(s) && Linea(s) && Lineb(s) && Linec(s) && Lined(s) && Linee(s) && Linef(s)
  }

  lemma SubIs(x: bv8, y: bv8, s: bv8)
    requires Mul(x, y) == 1 && Affine(y) == s
    ensures Sub(x) == s
  {
    InverseIs(x, y);
  }

  ghost predicate SubAt(s: Box, x: bv8) { s(x) == Sub(x) }

  /** `s` is the S-box of section 5.1.1. */
  ghost predicate IsSub(s: Box) { forall x: bv8 {:trigger SubAt(s, x)} :: SubAt(s, x) }

  lemma BoxIs(s: Box, x: bv8, y: bv8, z: bv8)
    requires IsSub(s) && Mul(x, y) == 1 && Affine(y) == z
    ensures s(x) == z
  {
    assert SubAt(s, x);
    SubIs(x, y, z);
  }

  lemma BoxZero(s: Box)
    requires IsSub(s)
    ensures s(0) == 0x63
  {
    assert SubAt(s, 0);
  }

  lemma Row0(s: Box)
    requires IsSub(s)
    ensures Line0(s)
  {
    BoxZero(s); BoxIs(s, 0x01, 0x01, 0x7c); BoxIs(s, 0x02, 0x8d, 0x77); BoxIs(s, 0x03, 0xf6, 0x7b);
    BoxIs(s, 0x04, 0xcb, 0xf2); BoxIs(s, 0x05, 0x52, 0x6b); BoxIs(s, 0x06, 0x7b, 0x6f); BoxIs(s, 0x07, 0xd1, 0xc5);
    BoxIs(s, 0x08, 0xe8, 0x30); BoxIs(s, 0x09, 0x4f, 0x01); BoxIs(s, 0x0a, 0x29, 0x67); BoxIs(s, 0x0b, 0xc0, 0x2b);
    BoxIs(s, 0x0c, 0xb0, 0xfe); BoxIs(s, 0x0d, 0xe1, 0xd7); BoxIs(s, 0x0e, 0xe5, 0xab); BoxIs(s, 0x0f, 0xc7, 0x76);
  }

  lemma Row1(s: Box)
    requires IsSub(s)
    ensures Line1(s)
  {
    BoxIs(s, 0x10, 0x74, 0xca); BoxIs(s, 0x11, 0xb4, 0x82); BoxIs(s, 0x12, 0xaa, 0xc9); BoxIs(s, 0x13, 0x4b, 0x7d);
    BoxIs(s, 0x14, 0x99, 0xfa); BoxIs(s, 0x15, 0x2b, 0x59); BoxIs(s, 0x16, 0x60, 0x47); BoxIs(s, 0x17, 0x5f, 0xf0);
    BoxIs(s, 0x18, 0x58, 0xad); BoxIs(s, 0x19, 0x3f, 0xd4); BoxIs(s, 0x1a, 0xfd, 0xa2); BoxIs(s, 0x1b, 0xcc, 0xaf);
    BoxIs(s, 0x1c, 0xff, 0x9c); BoxIs(s, 0x1d, 0x40, 0xa4); BoxIs(s, 0x1e, 0xee, 0x72); BoxIs(s, 0x1f, 0xb2, 0xc0);
  }

  lemma Row2(s: Box)
    requires IsSub(s)
    ensures Line2(s)
  {
    BoxIs(s, 0x20, 0x3a, 0xb7); BoxIs(s, 0x21, 0x6e, 0xfd); BoxIs(s, 0x22, 0x5a, 0x93); BoxIs(s, 0x23, 0xf1, 0x26);
    BoxIs(s, 0x24, 0x55, 0x36); BoxIs(s, 0x25, 0x4d, 0x3f); BoxIs(s, 0x26, 0xa8, 0xf7); BoxIs(s, 0x27, 0xc9, 0xcc);
    BoxIs(s, 0x28, 0xc1, 0x34); BoxIs(s, 0x29, 0x0a, 0xa5); BoxIs(s, 0x2a, 0x98, 0xe5); BoxIs(s, 0x2b, 0x15, 0xf1);
    BoxIs(s, 0x2c, 0x30, 0x71); BoxIs(s, 0x2d, 0x44, 0xd8); BoxIs(s, 0x2e, 0xa2, 0x31); BoxIs(s, 0x2f, 0xc2, 0x15);
  }

  lemma Row3(s: Box)
    requires IsSub(s)
    ensures Line3(s)
  {
    BoxIs(s, 0x30, 0x2c, 0x04); BoxIs(s, 0x31, 0x45, 0xc7); BoxIs(s, 0x32, 0x92, 0x23); BoxIs(s, 0x33, 0x6c, 0xc3);
    BoxIs(s, 0x34, 0xf3, 0x18); BoxIs(s, 0x35, 0x39, 0x96); BoxIs(s, 0x36, 0x66, 0x05); BoxIs(s, 0x37, 0x42, 0x9a);
    BoxIs(s, 0x38, 0xf2, 0x07); BoxIs(s, 0x39, 0x35, 0x12); BoxIs(s, 0x3a, 0x20, 0x80); BoxIs(s, 0x3b, 0x6f, 0xe2);
    BoxIs(s, 0x3c, 0x77, 0xeb); BoxIs(s, 0x3d, 0xbb, 0x27); BoxIs(s, 0x3e, 0x59, 0xb2); BoxIs(s, 0x3f, 0x19, 0x75);
  }

  lemma Row4(s: Box)
    requires IsSub(s)
    ensures Line4(s)
  {
    BoxIs(s, 0x40, 0x1d, 0x09); BoxIs(s, 0x41, 0xfe, 0x83); BoxIs(s, 0x42, 0x37, 0x2c); BoxIs(s, 0x43, 0x67, 0x1a);
    BoxIs(s, 0x44, 0x2d, 0x1b); BoxIs(s, 0x45, 0x31, 0x6e); BoxIs(s, 0x46, 0xf5, 0x5a); BoxIs(s, 0x47, 0x69, 0xa0);
    BoxIs(s, 0x48, 0xa7, 0x52); BoxIs(s, 0x49, 0x64, 0x3b); BoxIs(s, 0x4a, 0xab, 0xd6); BoxIs(s, 0x4b, 0x13, 0xb3);
    BoxIs(s, 0x4c, 0x54, 0x29); BoxIs(s, 0x4d, 0x25, 0xe3); BoxIs(s, 0x4e, 0xe9, 0x2f); BoxIs(s, 0x4f, 0x09, 0x84);
  }

  lemma Row5(s: Box)
    requires IsSub(s)
    ensures Line5(s)
  {
    BoxIs(s, 0x50, 0xed, 0x53); BoxIs(s, 0x51, 0x5c, 0xd1); BoxIs(s, 0x52, 0x05, 0x00); BoxIs(s, 0x53, 0xca, 0xed);
    BoxIs(s, 0x54, 0x4c, 0x20); BoxIs(s, 0x55, 0x24, 0xfc); BoxIs(s, 0x56, 0x87, 0xb1); BoxIs(s, 0x57, 0xbf, 0x5b);
    BoxIs(s, 0x58, 0x18, 0x6a); BoxIs(s, 0x59, 0x3e, 0xcb); BoxIs(s, 0x5a, 0x22, 0xbe); BoxIs(s, 0x5b, 0xf0, 0x39);
    BoxIs(s, 0x5c, 0x51, 0x4a); BoxIs(s, 0x5d, 0xec, 0x4c); BoxIs(s, 0x5e, 0x61, 0x58); BoxIs(s, 0x5f, 0x17, 0xcf);
  }

  lemma Row6(s: Box)
    requires IsSub(s)
    ensures Line6(s)
  {
    BoxIs(s, 0x60, 0x16, 0xd0); BoxIs(s, 0x61, 0x5e, 0xef); BoxIs(s, 0x62, 0xaf, 0xaa); BoxIs(s, 0x63, 0xd3, 0xfb);
    BoxIs(s, 0x64, 0x49, 0x43); BoxIs(s, 0x65, 0xa6, 0x4d); BoxIs(s, 0x66, 0x36, 0x33); BoxIs(s, 0x67, 0x43, 0x85);
    BoxIs(s, 0x68, 0xf4, 0x45); BoxIs(s, 0x69, 0x47, 0xf9); BoxIs(s, 0x6a, 0x91, 0x02); BoxIs(s, 0x6b, 0xdf, 0x7f);
    BoxIs(s, 0x6c, 0x33, 0x50); BoxIs(s, 0x6d, 0x93, 0x3c); BoxIs(s, 0x6e, 0x21, 0x9f); BoxIs(s, 0x6f, 0x3b, 0xa8);
  }

  lemma Row7(s: Box)
    requires IsSub(s)
    ensures Line7(s)
  {
    BoxIs(s, 0x70, 0x79, 0x51); BoxIs(s, 0x71, 0xb7, 0xa3); BoxIs(s, 0x72, 0x97, 0x40); BoxIs(s, 0x73, 0x85, 0x8f);
    BoxIs(s, 0x74, 0x10, 0x92); BoxIs(s, 0x75, 0xb5, 0x9d); BoxIs(s, 0x76, 0xba, 0x38); BoxIs(s, 0x77, 0x3c, 0xf5);
    BoxIs(s, 0x78, 0xb6, 0xbc); BoxIs(s, 0x79, 0x70, 0xb6); BoxIs(s, 0x7a, 0xd0, 0xda); BoxIs(s, 0x7b, 0x06, 0x21);
    BoxIs(s, 0x7c, 0xa1, 0x10); BoxIs(s, 0x7d, 0xfa, 0xff); BoxIs(s, 0x7e, 0x81, 0xf3); BoxIs(s, 0x7f, 0x82, 0xd2);
  }

  lemma Row8(s: Box)
    requires IsSub(s)
    ensures Line8(s)
  {
    BoxIs(s, 0x80, 0x83, 0xcd); BoxIs(s, 0x81, 0x7e, 0x0c); BoxIs(s, 0x82, 0x7f, 0x13); BoxIs(s, 0x83, 0x80, 0xec);
    BoxIs(s, 0x84, 0x96, 0x5f); BoxIs(s, 0x85, 0x73, 0x97); BoxIs(s, 0x86, 0xbe, 0x44); BoxIs(s, 0x87, 0x56, 0x17);
    BoxIs(s, 0x88, 0x9b, 0xc4); BoxIs(s, 0x89, 0x9e, 0xa7); BoxIs(s, 0x8a, 0x95, 0x7e); BoxIs(s, 0x8b, 0xd9, 0x3d);
    BoxIs(s, 0x8c, 0xf7, 0x64); BoxIs(s, 0x8d, 0x02, 0x5d); BoxIs(s, 0x8e, 0xb9, 0x19); BoxIs(s, 0x8f, 0xa4, 0x73);
  }

  lemma Row9(s: Box)
    requires IsSub(s)
    ensures Line9(s)
  {
    BoxIs(s, 0x90, 0xde, 0x60); BoxIs(s, 0x91, 0x6a, 0x81); BoxIs(s, 0x92, 0x32, 0x4f); BoxIs(s, 0x93, 0x6d, 0xdc);
    BoxIs(s, 0x94, 0xd8, 0x22); BoxIs(s, 0x95, 0x8a, 0x2a); BoxIs(s, 0x96, 0x84, 0x90); BoxIs(s, 0x97, 0x72, 0x88);
    BoxIs(s, 0x98, 0x2a, 0x46); BoxIs(s, 0x99, 0x14, 0xee); BoxIs(s, 0x9a, 0x9f, 0xb8); BoxIs(s, 0x9b, 0x88, 0x14);
    BoxIs(s, 0x9c, 0xf9, 0xde); BoxIs(s, 0x9d, 0xdc, 0x5e); BoxIs(s, 0x9e, 0x89, 0x0b); BoxIs(s, 0x9f, 0x9a, 0xdb);
  }

  lemma Rowa(s: Box)
    requires IsSub(s)
    ensures Linea(s)
  {
    BoxIs(s, 0xa0, 0xfb, 0xe0); BoxIs(s, 0xa1, 0x7c, 0x32); BoxIs(s, 0xa2, 0x2e, 0x3a); BoxIs(s, 0xa3, 0xc3, 0x0a);
    BoxIs(s, 0xa4, 0x8f, 0x49); BoxIs(s, 0xa5, 0xb8, 0x06); BoxIs(s, 0xa6, 0x65, 0x24); BoxIs(s, 0xa7, 0x48, 0x5c);
    BoxIs(s, 0xa8, 0x26, 0xc2); BoxIs(s, 0xa9, 0xc8, 0xd3); BoxIs(s, 0xaa, 0x12, 0xac); BoxIs(s, 0xab, 0x4a, 0x62);
    BoxIs(s, 0xac, 0xce, 0x91); BoxIs(s, 0xad, 0xe7, 0x95); BoxIs(s, 0xae, 0xd2, 0xe4); BoxIs(s, 0xaf, 0x62, 0x79);
  }

  lemma Rowb(s: Box)
    requires IsSub(s)
    ensures Lineb(s)
  {
    BoxIs(s, 0xb0, 0x0c, 0xe7); BoxIs(s, 0xb1, 0xe0, 0xc8); BoxIs(s, 0xb2, 0x1f, 0x37); BoxIs(s, 0xb3, 0xef, 0x6d);
    BoxIs(s, 0xb4, 0x11, 0x8d); BoxIs(s, 0xb5, 0x75, 0xd5); BoxIs(s, 0xb6, 0x78, 0x4e); BoxIs(s, 0xb7, 0x71, 0xa9);
    BoxIs(s, 0xb8, 0xa5, 0x6c); BoxIs(s, 0xb9, 0x8e, 0x56); BoxIs(s, 0xba, 0x76, 0xf4); BoxIs(s, 0xbb, 0x3d, 0xea);
    BoxIs(s, 0xbc, 0xbd, 0x65); BoxIs(s, 0xbd, 0xbc, 0x7a); BoxIs(s, 0xbe, 0x86, 0xae); BoxIs(s, 0xbf, 0x57, 0x08);
  }

  lemma Rowc(s: Box)
    requires IsSub(s)
    ensures Linec(s)
  {
    BoxIs(s, 0xc0, 0x0b, 0xba); BoxIs(s, 0xc1, 0x28, 0x78); BoxIs(s, 0xc2, 0x2f, 0x25); BoxIs(s, 0xc3, 0xa3, 0x2e);
    BoxIs(s, 0xc4, 0xda, 0x1c); BoxIs(s, 0xc5, 0xd4, 0xa6); BoxIs(s, 0xc6, 0xe4, 0xb4); BoxIs(s, 0xc7, 0x0f, 0xc6);
    BoxIs(s, 0xc8, 0xa9, 0xe8); BoxIs(s, 0xc9, 0x27, 0xdd); BoxIs(s, 0xca, 0x53, 0x74); BoxIs(s, 0xcb, 0x04, 0x1f);
    BoxIs(s, 0xcc, 0x1b, 0x4b); BoxIs(s, 0xcd, 0xfc, 0xbd); BoxIs(s, 0xce, 0xac, 0x8b); BoxIs(s, 0xcf, 0xe6, 0x8a);
  }

  lemma Rowd(s: Box)
    requires IsSub(s)
    ensures Lined(s)
  {
    BoxIs(s, 0xd0, 0x7a, 0x70); BoxIs(s, 0xd1, 0x07, 0x3e); BoxIs(s, 0xd2, 0xae, 0xb5); BoxIs(s, 0xd3, 0x63, 0x66);
    BoxIs(s, 0xd4, 0xc5, 0x48); BoxIs(s, 0xd5, 0xdb, 0x03); BoxIs(s, 0xd6, 0xe2, 0xf6); BoxIs(s, 0xd7, 0xea, 0x0e);
    BoxIs(s, 0xd8, 0x94, 0x61); BoxIs(s, 0xd9, 0x8b, 0x35); BoxIs(s, 0xda, 0xc4, 0x57); BoxIs(s, 0xdb, 0xd5, 0xb9);
    BoxIs(s, 0xdc, 0x9d, 0x86); BoxIs(s, 0xdd, 0xf8, 0xc1); BoxIs(s, 0xde, 0x90, 0x1d); BoxIs(s, 0xdf, 0x6b, 0x9e);
  }

  lemma Rowe(s: Box)
    requires IsSub(s)
    ensures Linee(s)
  {
    BoxIs(s, 0xe0, 0xb1, 0xe1); BoxIs(s, 0xe1, 0x0d, 0xf8); BoxIs(s, 0xe2, 0xd6, 0x98); BoxIs(s, 0xe3, 0xeb, 0x11);
    BoxIs(s, 0xe4, 0xc6, 0x69); BoxIs(s, 0xe5, 0x0e, 0xd9); BoxIs(s, 0xe6, 0xcf, 0x8e); BoxIs(s, 0xe7, 0xad, 0x94);
    BoxIs(s, 0xe8, 0x08, 0x9b); BoxIs(s, 0xe9, 0x4e, 0x1e); BoxIs(s, 0xea, 0xd7, 0x87); BoxIs(s, 0xeb, 0xe3, 0xe9);
    BoxIs(s, 0xec, 0x5d, 0xce); BoxIs(s, 0xed, 0x50, 0x55); BoxIs(s, 0xee, 0x1e, 0x28); BoxIs(s, 0xef, 0xb3, 0xdf);
  }

  lemma Rowf(s: Box)
    requires IsSub(s)
    ensures Linef(s)
  {
    BoxIs(s, 0xf0, 0x5b, 0x8c); BoxIs(s, 0xf1, 0x23, 0xa1); BoxIs(s, 0xf2, 0x38, 0x89); BoxIs(s, 0xf3, 0x34, 0x0d);
    BoxIs(s, 0xf4, 0x68, 0xbf); BoxIs(s, 0xf5, 0x46, 0xe6); BoxIs(s, 0xf6, 0x03, 0x42); BoxIs(s, 0xf7, 0x8c, 0x68);
    BoxIs(s, 0xf8, 0xdd, 0x41); BoxIs(s, 0xf9, 0x9c, 0x99); BoxIs(s, 0xfa, 0x7d, 0x2d); BoxIs(s, 0xfb, 0xa0, 0x0f);
    BoxIs(s, 0xfc, 0xcd, 0xb0); BoxIs(s, 0xfd, 0x1a, 0x54); BoxIs(s, 0xfe, 0x41, 0xbb); BoxIs(s, 0xff, 0x1c, 0x16);
  }

  /** The affine image of the inverse is the published table. */
  lemma SubIsFigure7(s: Box)
    requires IsSub(s)
    ensures Figure7(s)
  {
    Row0(s);
    Row1(s);
    Row2(s);
    Row3(s);
    Row4(s);
    Row5(s);
    Row6(s);
    Row7(s);
    Row8(s);
    Row9(s);
    Rowa(s);
    Rowb(s);
    Rowc(s);
    Rowd(s);
    Rowe(s);
    Rowf(s);
  }

  // ---------------------------------------------------------------- the key expansion

  /** The number of rounds, figure 4. */
  lemma Figure4()
    ensures NumRounds(16) == 10 && NumRounds(24) == 12 && NumRounds(32) == 14
  {
  }

  function Subbed(s: Box, v: Col): Col { Col(s(v.a), s(v.b), s(v.c), s(v.d)) }

  lemma SubbedIs(s: Box, v: Col)
    requires IsSub(s)
    ensures Subbed(s, v) == SubCol(v)
  {
    assert SubAt(s, v.a) && SubAt(s, v.b) && SubAt(s, v.c) && SubAt(s, v.d);
  }

  /** A word at a multiple of the key length. */
  lemma TurnedWord(s: Box, w: Schedule, nk: nat, n: nat, rc: bv8)
    requires IsSub(s) && Expansion(w, nk) && nk <= n && n % nk == 0 && Rcon(n / nk - 1) == rc
    ensures w(n) == Plus(Plus(Subbed(s, Turn1(w(n - 1))), Col(rc, 0, 0, 0)), w(n - nk))
  {
    assert ExpandsAt(w, nk, n);
    SubbedIs(s, Turn1(w(n - 1)));
  }

  /** The word in the middle of an eight-word key. */
  lemma SubbedWord(s: Box, w: Schedule, n: nat)
    requires IsSub(s) && Expansion(w, 8) && 8 <= n && n % 8 == 4
    ensures w(n) == Plus(Subbed(s, w(n - 1)), w(n - 8))
  {
    assert ExpandsAt(w, 8, n);
    SubbedIs(s, w(n - 1));
  }

  lemma PlainWord(w: Schedule, nk: nat, n: nat)
    requires Expansion(w, nk) && nk <= n && n % nk != 0 && (nk <= 6 || n % nk != 4)
    ensures w(n) == Plus(w(n - 1), w(n - nk))
  {
    assert ExpandsAt(w, nk, n);
  }

  /** Words 4 to 7 of the example of appendix A.1. */
  lemma ExampleA1(s: Box, w: Schedule)
    requires Figure7(s) && IsSub(s) && Expansion(w, 4)
    requires w(0) == Col(0x2b, 0x7e, 0x15, 0x16) && w(1) == Col(0x28, 0xae, 0xd2, 0xa6) && w(2) == Col(0xab, 0xf7, 0x15, 0x88) && w(3) == Col(0x09, 0xcf, 0x4f, 0x3c)
    ensures w(4) == Col(0xa0, 0xfa, 0xfe, 0x17) && w(5) == Col(0x88, 0x54, 0x2c, 0xb1) && w(6) == Col(0x23, 0xa3, 0x39, 0x39) && w(7) == Col(0x2a, 0x6c, 0x76, 0x05)
  {
    Constants();
    TurnedWord(s, w, 4, 4, 0x01);
    PlainWord(w, 4, 5);
    PlainWord(w, 4, 6);
    PlainWord(w, 4, 7);
  }

  /** Words 6 to 8 of the example of appendix A.2. */
  lemma ExampleA2(s: Box, w: Schedule)
    requires Figure7(s) && IsSub(s) && Expansion(w, 6)
    requires w(0) == Col(0x8e, 0x73, 0xb0, 0xf7) && w(1) == Col(0xda, 0x0e, 0x64, 0x52) && w(2) == Col(0xc8, 0x10, 0xf3, 0x2b) && w(5) == Col(0x52, 0x2c, 0x6b, 0x7b)
    ensures w(6) == Col(0xfe, 0x0c, 0x91, 0xf7) && w(7) == Col(0x24, 0x02, 0xf5, 0xa5) && w(8) == Col(0xec, 0x12, 0x06, 0x8e)
  {
    Constants();
    TurnedWord(s, w, 6, 6, 0x01);
    PlainWord(w, 6, 7);
    PlainWord(w, 6, 8);
  }

  /** Words 8 to 12 of the example of appendix A.3. */
  lemma ExampleA3(s: Box, w: Schedule)
    requires Figure7(s) && IsSub(s) && Expansion(w, 8)
    requires w(0) == Col(0x60, 0x3d, 0xeb, 0x10) && w(1) == Col(0x15, 0xca, 0x71, 0xbe) && w(2) == Col(0x2b, 0x73, 0xae, 0xf0) && w(3) == Col(0x85, 0x7d, 0x77, 0x81)
    requires w(4) == Col(0x1f, 0x35, 0x2c, 0x07) && w(7) == Col(0x09, 0x14, 0xdf, 0xf4)
    ensures w(8) == Col(0x9b, 0xa3, 0x54, 0x11) && w(9) == Col(0x8e, 0x69, 0x25, 0xaf) && w(10) == Col(0xa5, 0x1a, 0x8b, 0x5f) && w(11) == Col(0x20, 0x67, 0xfc, 0xde) && w(12) == Col(0xa8, 0xb0, 0x9c, 0x1a)
  {
    Constants();
    TurnedWord(s, w, 8, 8, 0x01);
    PlainWord(w, 8, 9);
    PlainWord(w, 8, 10);
    PlainWord(w, 8, 11);
    SubbedWord(s, w, 12);
  }

  // ---------------------------------------------------------------- appendix C.1

  lemma Key1(s: Box, w: Schedule)
    requires Figure7(s) && IsSub(s) && Expansion(w, 4) && Key(w, 0) == State(Col(0x00, 0x01, 0x02, 0x03), Col(0x04, 0x05, 0x06, 0x07), Col(0x08, 0x09, 0x0a, 0x0b), Col(0x0c, 0x0d, 0x0e, 0x0f))
    ensures Key(w, 1) == State(Col(0xd6, 0xaa, 0x74, 0xfd), Col(0xd2, 0xaf, 0x72, 0xfa), Col(0xda, 0xa6, 0x78, 0xf1), Col(0xd6, 0xab, 0x76, 0xfe))
  {
    Constants();
    TurnedWord(s, w, 4, 4, 0x01);
    PlainWord(w, 4, 5);
    PlainWord(w, 4, 6);
    PlainWord(w, 4, 7);
  }

  lemma Key2(s: Box, w: Schedule)
    requires Figure7(s) && IsSub(s) && Expansion(w, 4) && Key(w, 1) == State(Col(0xd6, 0xaa, 0x74, 0xfd), Col(0xd2, 0xaf, 0x72, 0xfa), Col(0xda, 0xa6, 0x78, 0xf1), Col(0xd6, 0xab, 0x76, 0xfe))
    ensures Key(w, 2) == State(Col(0xb6, 0x92, 0xcf, 0x0b), Col(0x64, 0x3d, 0xbd, 0xf1), Col(0xbe, 0x9b, 0xc5, 0x00), Col(0x68, 0x30, 0xb3, 0xfe))
  {
    Constants();
    TurnedWord(s, w, 4, 8, 0x02);
    PlainWord(w, 4, 9);
    PlainWord(w, 4, 10);
    PlainWord(w, 4, 11);
  }

  lemma Key3(s: Box, w: Schedule)
    requires Figure7(s) && IsSub(s) && Expansion(w, 4) && Key(w, 2) == State(Col(0xb6, 0x92, 0xcf, 0x0b), Col(0x64, 0x3d, 0xbd, 0xf1), Col(0xbe, 0x9b, 0xc5, 0x00), Col(0x68, 0x30, 0xb3, 0xfe))
    ensures Key(w, 3) == State(Col(0xb6, 0xff, 0x74, 0x4e), Col(0xd2, 0xc2, 0xc9, 0xbf), Col(0x6c, 0x59, 0x0c, 0xbf), Col(0x04, 0x69, 0xbf, 0x41))
  {
    Constants();
    TurnedWord(s, w, 4, 12, 0x04);
    PlainWord(w, 4, 13);
    PlainWord(w, 4, 14);
    PlainWord(w, 4, 15);
  }

  lemma Key4(s: Box, w: Schedule)
    requires Figure7(s) && IsSub(s) && Expansion(w, 4) && Key(w, 3) == State(Col(0xb6, 0xff, 0x74, 0x4e), Col(0xd2, 0xc2, 0xc9, 0xbf), Col(0x6c, 0x59, 0x0c, 0xbf), Col(0x04, 0x69, 0xbf, 0x41))
    ensures Key(w, 4) == State(Col(0x47, 0xf7, 0xf7, 0xbc), Col(0x95, 0x35, 0x3e, 0x03), Col(0xf9, 0x6c, 0x32, 0xbc), Col(0xfd, 0x05, 0x8d, 0xfd))
  {
    Constants();
    TurnedWord(s, w, 4, 16, 0x08);
    PlainWord(w, 4, 17);
    PlainWord(w, 4, 18);
    PlainWord(w, 4, 19);
  }

  lemma Key5(s: Box, w: Schedule)
    requires Figure7(s) && IsSub(s) && Expansion(w, 4) && Key(w, 4) == State(Col(0x47, 0xf7, 0xf7, 0xbc), Col(0x95, 0x35, 0x3e, 0x03), Col(0xf9, 0x6c, 0x32, 0xbc), Col(0xfd, 0x05, 0x8d, 0xfd))
    ensures Key(w, 5) == State(Col(0x3c, 0xaa, 0xa3, 0xe8), Col(0xa9, 0x9f, 0x9d, 0xeb), Col(0x50, 0xf3, 0xaf, 0x57), Col(0xad, 0xf6, 0x22, 0xaa))
  {
    Constants();
    TurnedWord(s, w, 4, 20, 0x10);
    PlainWord(w, 4, 21);
    PlainWord(w, 4, 22);
    PlainWord(w, 4, 23);
  }

  lemma Key6(s: Box, w: Schedule)
    requires Figure7(s) && IsSub(s) && Expansion(w, 4) && Key(w, 5) == State(Col(0x3c, 0xaa, 0xa3, 0xe8), Col(0xa9, 0x9f, 0x9d, 0xeb), Col(0x50, 0xf3, 0xaf, 0x57), Col(0xad, 0xf6, 0x22, 0xaa))
    ensures Key(w, 6) == State(Col(0x5e, 0x39, 0x0f, 0x7d), Col(0xf7, 0xa6, 0x92, 0x96), Col(0xa7, 0x55, 0x3d, 0xc1), Col(0x0a, 0xa3, 0x1f, 0x6b))
  {
    Constants();
    TurnedWord(s, w, 4, 24, 0x20);
    PlainWord(w, 4, 25);
    PlainWord(w, 4, 26);
    PlainWord(w, 4, 27);
  }

  lemma Key7(s: Box, w: Schedule)
    requires Figure7(s) && IsSub(s) && Expansion(w, 4) && Key(w, 6) == State(Col(0x5e, 0x39, 0x0f, 0x7d), Col(0xf7, 0xa6, 0x92, 0x96), Col(0xa7, 0x55, 0x3d, 0xc1), Col(0x0a, 0xa3, 0x1f, 0x6b))
    ensures Key(w, 7) == State(Col(0x14, 0xf9, 0x70, 0x1a), Col(0xe3, 0x5f, 0xe2, 0x8c), Col(0x44, 0x0a, 0xdf, 0x4d), Col(0x4e, 0xa9, 0xc0, 0x26))
  {
    Constants();
    TurnedWord(s, w, 4, 28, 0x40);
    PlainWord(w, 4, 29);
    PlainWord(w, 4, 30);
    PlainWord(w, 4, 31);
  }

  lemma Key8(s: Box, w: Schedule)
    requires Figure7(s) && IsSub(s) && Expansion(w, 4) && Key(w, 7) == State(Col(0x14, 0xf9, 0x70, 0x1a), Col(0xe3, 0x5f, 0xe2, 0x8c), Col(0x44, 0x0a, 0xdf, 0x4d), Col(0x4e, 0xa9, 0xc0, 0x26))
    ensures Key(w, 8) == State(Col(0x47, 0x43, 0x87, 0x35), Col(0xa4, 0x1c, 0x65, 0xb9), Col(0xe0, 0x16, 0xba, 0xf4), Col(0xae, 0xbf, 0x7a, 0xd2))
  {
    Constants();
    TurnedWord(s, w, 4, 32, 0x80);
    PlainWord(w, 4, 33);
    PlainWord(w, 4, 34);
    PlainWord(w, 4, 35);
  }

  lemma Key9(s: Box, w: Schedule)
    requires Figure7(s) && IsSub(s) && Expansion(w, 4) && Key(w, 8) == State(Col(0x47, 0x43, 0x87, 0x35), Col(0xa4, 0x1c, 0x65, 0xb9), Col(0xe0, 0x16, 0xba, 0xf4), Col(0xae, 0xbf, 0x7a, 0xd2))
    ensures Key(w, 9) == State(Col(0x54, 0x99, 0x32, 0xd1), Col(0xf0, 0x85, 0x57, 0x68), Col(0x10, 0x93, 0xed, 0x9c), Col(0xbe, 0x2c, 0x97, 0x4e))
  {
    Constants();
    TurnedWord(s, w, 4, 36, 0x1b);
    PlainWord(w, 4, 37);
    PlainWord(w, 4, 38);
    PlainWord(w, 4, 39);
  }

  lemma Key10(s: Box, w: Schedule)
    requires Figure7(s) && IsSub(s) && Expansion(w, 4) && Key(w, 9) == State(Col(0x54, 0x99, 0x32, 0xd1), Col(0xf0, 0x85, 0x57, 0x68), Col(0x10, 0x93, 0xed, 0x9c), Col(0xbe, 0x2c, 0x97, 0x4e))
    ensures Key(w, 10) == State(Col(0x13, 0x11, 0x1d, 0x7f), Col(0xe3, 0x94, 0x4a, 0x17), Col(0xf3, 0x07, 0xa7, 0x8b), Col(0x4d, 0x2b, 0x30, 0xc5))
  {
    Constants();
    TurnedWord(s, w, 4, 40, 0x36);
    PlainWord(w, 4, 41);
    PlainWord(w, 4, 42);
    PlainWord(w, 4, 43);
  }

  /** MixColumns by doubling. */
  function Doubled(a: bv8, b: bv8, c: bv8, d: bv8): bv8 { Xt(a) ^ Xt(b) ^ b ^ c ^ d }

  function MixBy(v: Col): Col {
    Col(Doubled(v.a, v.b, v.c, v.d), Doubled(v.b, v.c, v.d, v.a), Doubled(v.c, v.d, v.a, v.b), Doubled(v.d, v.a, v.b, v.c))
  }

  lemma DoubledIs(a: bv8, b: bv8, c: bv8, d: bv8)
    ensures MixByte(a, b, c, d) == Doubled(a, b, c, d)
  {
    Mul2(a);
    Mul3(b);
    AddUp(Mul(2, a), Mul(3, b), c, d, Xt(a), Xt(b), b);
  }

  lemma AddUp(p: bv8, q: bv8, c: bv8, d: bv8, x: bv8, y: bv8, b: bv8)
    requires p == x && q == y ^ b
    ensures Add4(p, q, c, d) == x ^ y ^ b ^ c ^ d
  {
    Add4IsXor(p, q, c, d);
  }

  lemma MixByIs(v: Col)
    ensures MixBy(v) == Mix(v)
  {
    DoubledIs(v.a, v.b, v.c, v.d);
    DoubledIs(v.b, v.c, v.d, v.a);
    DoubledIs(v.c, v.d, v.a, v.b);
    DoubledIs(v.d, v.a, v.b, v.c);
  }

  /** The round over a tabulated S-box. */
  function ShiftedBy(s: Box, x: State): State {
    ShiftRows(State(Subbed(s, x.c0), Subbed(s, x.c1), Subbed(s, x.c2), Subbed(s, x.c3)))
  }

  function RoundBy(s: Box, x: State, k: State): State {
    var t := ShiftedBy(s, x);
    AddKey(State(MixBy(t.c0), MixBy(t.c1), MixBy(t.c2), MixBy(t.c3)), k)
  }

  lemma ShiftedByIs(s: Box, x: State)
    requires IsSub(s)
    ensures ShiftedBy(s, x) == SubShift(x)
  {
    SubbedIs(s, x.c0);
    SubbedIs(s, x.c1);
    SubbedIs(s, x.c2);
    SubbedIs(s, x.c3);
  }

  lemma RoundByIs(s: Box, x: State, k: State)
    requires IsSub(s)
    ensures RoundBy(s, x, k) == FullRound(x, k)
  {
    ShiftedByIs(s, x);
    var t := ShiftedBy(s, x);
    MixByIs(t.c0);
    MixByIs(t.c1);
    MixByIs(t.c2);
    MixByIs(t.c3);
  }

  lemma Round1(s: Box)
    requires Figure7(s)
    ensures RoundBy(s, State(Col(0x00, 0x10, 0x20, 0x30), Col(0x40, 0x50, 0x60, 0x70), Col(0x80, 0x90, 0xa0, 0xb0), Col(0xc0, 0xd0, 0xe0, 0xf0)),
                    State(Col(0xd6, 0xaa, 0x74, 0xfd), Col(0xd2, 0xaf, 0x72, 0xfa), Col(0xda, 0xa6, 0x78, 0xf1), Col(0xd6, 0xab, 0x76, 0xfe))) ==
                    State(Col(0x89, 0xd8, 0x10, 0xe8), Col(0x85, 0x5a, 0xce, 0x68), Col(0x2d, 0x18, 0x43, 0xd8), Col(0xcb, 0x12, 0x8f, 0xe4))
  {
  }

  lemma Round2(s: Box)
    requires Figure7(s)
    ensures RoundBy(s, State(Col(0x89, 0xd8, 0x10, 0xe8), Col(0x85, 0x5a, 0xce, 0x68), Col(0x2d, 0x18, 0x43, 0xd8), Col(0xcb, 0x12, 0x8f, 0xe4)),
                    State(Col(0xb6, 0x92, 0xcf, 0x0b), Col(0x64, 0x3d, 0xbd, 0xf1), Col(0xbe, 0x9b, 0xc5, 0x00), Col(0x68, 0x30, 0xb3, 0xfe))) ==
                    State(Col(0x49, 0x15, 0x59, 0x8f), Col(0x55, 0xe5, 0xd7, 0xa0), Col(0xda, 0xca, 0x94, 0xfa), Col(0x1f, 0x0a, 0x63, 0xf7))
  {
  }

  lemma Round3(s: Box)
    requires Figure7(s)
    ensures RoundBy(s, State(Col(0x49, 0x15, 0x59, 0x8f), Col(0x55, 0xe5, 0xd7, 0xa0), Col(0xda, 0xca, 0x94, 0xfa), Col(0x1f, 0x0a, 0x63, 0xf7)),
                    State(Col(0xb6, 0xff, 0x74, 0x4e), Col(0xd2, 0xc2, 0xc9, 0xbf), Col(0x6c, 0x59, 0x0c, 0xbf), Col(0x04, 0x69, 0xbf, 0x41))) ==
                    State(Col(0xfa, 0x63, 0x6a, 0x28), Col(0x25, 0xb3, 0x39, 0xc9), Col(0x40, 0x66, 0x8a, 0x31), Col(0x57, 0x24, 0x4d, 0x17))
  {
  }

  lemma Round4(s: Box)
    requires Figure7(s)
    ensures RoundBy(s, State(Col(0xfa, 0x63, 0x6a, 0x28), Col(0x25, 0xb3, 0x39, 0xc9), Col(0x40, 0x66, 0x8a, 0x31), Col(0x57, 0x24, 0x4d, 0x17)),
                    State(Col(0x47, 0xf7, 0xf7, 0xbc), Col(0x95, 0x35, 0x3e, 0x03), Col(0xf9, 0x6c, 0x32, 0xbc), Col(0xfd, 0x05, 0x8d, 0xfd))) ==
                    State(Col(0x24, 0x72, 0x40, 0x23), Col(0x69, 0x66, 0xb3, 0xfa), Col(0x6e, 0xd2, 0x75, 0x32), Col(0x88, 0x42, 0x5b, 0x6c))
  {
  }

  lemma Round5(s: Box)
    requires Figure7(s)
    ensures RoundBy(s, State(Col(0x24, 0x72, 0x40, 0x23), Col(0x69, 0x66, 0xb3, 0xfa), Col(0x6e, 0xd2, 0x75, 0x32), Col(0x88, 0x42, 0x5b, 0x6c)),
                    State(Col(0x3c, 0xaa, 0xa3, 0xe8), Col(0xa9, 0x9f, 0x9d, 0xeb), Col(0x50, 0xf3, 0xaf, 0x57), Col(0xad, 0xf6, 0x22, 0xaa))) ==
                    State(Col(0xc8, 0x16, 0x77, 0xbc), Col(0x9b, 0x7a, 0xc9, 0x3b), Col(0x25, 0x02, 0x79, 0x92), Col(0xb0, 0x26, 0x19, 0x96))
  {
  }

  lemma Round6(s: Box)
    requires Figure7(s)
    ensures RoundBy(s, State(Col(0xc8, 0x16, 0x77, 0xbc), Col(0x9b, 0x7a, 0xc9, 0x3b), Col(0x25, 0x02, 0x79, 0x92), Col(0xb0, 0x26, 0x19, 0x96)),
                    State(Col(0x5e, 0x39, 0x0f, 0x7d), Col(0xf7, 0xa6, 0x92, 0x96), Col(0xa7, 0x55, 0x3d, 0xc1), Col(0x0a, 0xa3, 0x1f, 0x6b))) ==
                    State(Col(0xc6, 0x2f, 0xe1, 0x09), Col(0xf7, 0x5e, 0xed, 0xc3), Col(0xcc, 0x79, 0x39, 0x5d), Col(0x84, 0xf9, 0xcf, 0x5d))
  {
  }

  lemma Round7(s: Box)
    requires Figure7(s)
    ensures RoundBy(s, State(Col(0xc6, 0x2f, 0xe1, 0x09), Col(0xf7, 0x5e, 0xed, 0xc3), Col(0xcc, 0x79, 0x39, 0x5d), Col(0x84, 0xf9, 0xcf, 0x5d)),
                    State(Col(0x14, 0xf9, 0x70, 0x1a), Col(0xe3, 0x5f, 0xe2, 0x8c), Col(0x44, 0x0a, 0xdf, 0x4d), Col(0x4e, 0xa9, 0xc0, 0x26))) ==
                    State(Col(0xd1, 0x87, 0x6c, 0x0f), Col(0x79, 0xc4, 0x30, 0x0a), Col(0xb4, 0x55, 0x94, 0xad), Col(0xd6, 0x6f, 0xf4, 0x1f))
  {
  }

  lemma Round8(s: Box)
    requires Figure7(s)
    ensures RoundBy(s, State(Col(0xd1, 0x87, 0x6c, 0x0f), Col(0x79, 0xc4, 0x30, 0x0a), Col(0xb4, 0x55, 0x94, 0xad), Col(0xd6, 0x6f, 0xf4, 0x1f)),
                    State(Col(0x47, 0x43, 0x87, 0x35), Col(0xa4, 0x1c, 0x65, 0xb9), Col(0xe0, 0x16, 0xba, 0xf4), Col(0xae, 0xbf, 0x7a, 0xd2))) ==
                    State(Col(0xfd, 0xe3, 0xba, 0xd2), Col(0x05, 0xe5, 0xd0, 0xd7), Col(0x35, 0x47, 0x96, 0x4e), Col(0xf1, 0xfe, 0x37, 0xf1))
  {
  }

  lemma Round9(s: Box)
    requires Figure7(s)
    ensures RoundBy(s, State(Col(0xfd, 0xe3, 0xba, 0xd2), Col(0x05, 0xe5, 0xd0, 0xd7), Col(0x35, 0x47, 0x96, 0x4e), Col(0xf1, 0xfe, 0x37, 0xf1)),
                    State(Col(0x54, 0x99, 0x32, 0xd1), Col(0xf0, 0x85, 0x57, 0x68), Col(0x10, 0x93, 0xed, 0x9c), Col(0xbe, 0x2c, 0x97, 0x4e))) ==
                    State(Col(0xbd, 0x6e, 0x7c, 0x3d), Col(0xf2, 0xb5, 0x77, 0x9e), Col(0x0b, 0x61, 0x21, 0x6e), Col(0x8b, 0x10, 0xb6, 0x89))
  {
  }

  lemma LastRound(s: Box)
    requires Figure7(s)
    ensures AddKey(ShiftedBy(s, State(Col(0xbd, 0x6e, 0x7c, 0x3d), Col(0xf2, 0xb5, 0x77, 0x9e), Col(0x0b, 0x61, 0x21, 0x6e), Col(0x8b, 0x10, 0xb6, 0x89))),
                   State(Col(0x13, 0x11, 0x1d, 0x7f), Col(0xe3, 0x94, 0x4a, 0x17), Col(0xf3, 0x07, 0xa7, 0x8b), Col(0x4d, 0x2b, 0x30, 0xc5))) ==
                   State(Col(0x69, 0xc4, 0xe0, 0xd8), Col(0x6a, 0x7b, 0x04, 0x30), Col(0xd8, 0xcd, 0xb7, 0x80), Col(0x70, 0xb4, 0xc5, 0x5a))
  {
  }

  lemma Keys(s: Box, w: Schedule)
    requires Figure7(s) && IsSub(s) && Expansion(w, 4) && Key(w, 0) == State(Col(0x00, 0x01, 0x02, 0x03), Col(0x04, 0x05, 0x06, 0x07), Col(0x08, 0x09, 0x0a, 0x0b), Col(0x0c, 0x0d, 0x0e, 0x0f))

    ensures Key(w, 1) == State(Col(0xd6, 0xaa, 0x74, 0xfd), Col(0xd2, 0xaf, 0x72, 0xfa), Col(0xda, 0xa6, 0x78, 0xf1), Col(0xd6, 0xab, 0x76, 0xfe))
    ensures Key(w, 2) == State(Col(0xb6, 0x92, 0xcf, 0x0b), Col(0x64, 0x3d, 0xbd, 0xf1), Col(0xbe, 0x9b, 0xc5, 0x00), Col(0x68, 0x30, 0xb3, 0xfe))
    ensures Key(w, 3) == State(Col(0xb6, 0xff, 0x74, 0x4e), Col(0xd2, 0xc2, 0xc9, 0xbf), Col(0x6c, 0x59, 0x0c, 0xbf), Col(0x04, 0x69, 0xbf, 0x41))
    ensures Key(w, 4) == State(Col(0x47, 0xf7, 0xf7, 0xbc), Col(0x95, 0x35, 0x3e, 0x03), Col(0xf9, 0x6c, 0x32, 0xbc), Col(0xfd, 0x05, 0x8d, 0xfd))
    ensures Key(w, 5) == State(Col(0x3c, 0xaa, 0xa3, 0xe8), Col(0xa9, 0x9f, 0x9d, 0xeb), Col(0x50, 0xf3, 0xaf, 0x57), Col(0xad, 0xf6, 0x22, 0xaa))
    ensures Key(w, 6) == State(Col(0x5e, 0x39, 0x0f, 0x7d), Col(0xf7, 0xa6, 0x92, 0x96), Col(0xa7, 0x55, 0x3d, 0xc1), Col(0x0a, 0xa3, 0x1f, 0x6b))
    ensures Key(w, 7) == State(Col(0x14, 0xf9, 0x70, 0x1a), Col(0xe3, 0x5f, 0xe2, 0x8c), Col(0x44, 0x0a, 0xdf, 0x4d), Col(0x4e, 0xa9, 0xc0, 0x26))
    ensures Key(w, 8) == State(Col(0x47, 0x43, 0x87, 0x35), Col(0xa4, 0x1c, 0x65, 0xb9), Col(0xe0, 0x16, 0xba, 0xf4), Col(0xae, 0xbf, 0x7a, 0xd2))
    ensures Key(w, 9) == State(Col(0x54, 0x99, 0x32, 0xd1), Col(0xf0, 0x85, 0x57, 0x68), Col(0x10, 0x93, 0xed, 0x9c), Col(0xbe, 0x2c, 0x97, 0x4e))
    ensures Key(w, 10) == State(Col(0x13, 0x11, 0x1d, 0x7f), Col(0xe3, 0x94, 0x4a, 0x17), Col(0xf3, 0x07, 0xa7, 0x8b), Col(0x4d, 0x2b, 0x30, 0xc5))
  {
    Key1(s, w);
    Key2(s, w);
    Key3(s, w);
    Key4(s, w);
    Key5(s, w);
    Key6(s, w);
    Key7(s, w);
    Key8(s, w);
    Key9(s, w);
    Key10(s, w);
  }

  /** One more round from a known state to a known state. */
  lemma OneMore(s: Box, key: Keys, x: State, r: nat, u: State, k: State, v: State)
    requires IsSub(s) && u == Up(FullRound, key, x, r) && key(r + 1) == k && RoundBy(s, u, k) == v
    ensures v == Up(FullRound, key, x, r + 1)
  {
    UpStep(FullRound, key, x, r, u);
    RoundByIs(s, u, k);
  }

  lemma Rounds1(s: Box, key: Keys, x: State)
    requires Figure7(s) && IsSub(s) && Up(FullRound, key, x, 0) == State(Col(0x00, 0x10, 0x20, 0x30), Col(0x40, 0x50, 0x60, 0x70), Col(0x80, 0x90, 0xa0, 0xb0), Col(0xc0, 0xd0, 0xe0, 0xf0))
    requires key(1) == State(Col(0xd6, 0xaa, 0x74, 0xfd), Col(0xd2, 0xaf, 0x72, 0xfa), Col(0xda, 0xa6, 0x78, 0xf1), Col(0xd6, 0xab, 0x76, 0xfe))
      && key(2) == State(Col(0xb6, 0x92, 0xcf, 0x0b), Col(0x64, 0x3d, 0xbd, 0xf1), Col(0xbe, 0x9b, 0xc5, 0x00), Col(0x68, 0x30, 0xb3, 0xfe))
      && key(3) == State(Col(0xb6, 0xff, 0x74, 0x4e), Col(0xd2, 0xc2, 0xc9, 0xbf), Col(0x6c, 0x59, 0x0c, 0xbf), Col(0x04, 0x69, 0xbf, 0x41))
    ensures Up(FullRound, key, x, 3) == State(Col(0xfa, 0x63, 0x6a, 0x28), Col(0x25, 0xb3, 0x39, 0xc9), Col(0x40, 0x66, 0x8a, 0x31), Col(0x57, 0x24, 0x4d, 0x17))
  {
    Round1(s);
    OneMore(s, key, x, 0, State(Col(0x00, 0x10, 0x20, 0x30), Col(0x40, 0x50, 0x60, 0x70), Col(0x80, 0x90, 0xa0, 0xb0), Col(0xc0, 0xd0, 0xe0, 0xf0)), State(Col(0xd6, 0xaa, 0x74, 0xfd), Col(0xd2, 0xaf, 0x72, 0xfa), Col(0xda, 0xa6, 0x78, 0xf1), Col(0xd6, 0xab, 0x76, 0xfe)),
            State(Col(0x89, 0xd8, 0x10, 0xe8), Col(0x85, 0x5a, 0xce, 0x68), Col(0x2d, 0x18, 0x43, 0xd8), Col(0xcb, 0x12, 0x8f, 0xe4)));
    Round2(s);
    OneMore(s, key, x, 1, State(Col(0x89, 0xd8, 0x10, 0xe8), Col(0x85, 0x5a, 0xce, 0x68), Col(0x2d, 0x18, 0x43, 0xd8), Col(0xcb, 0x12, 0x8f, 0xe4)), State(Col(0xb6, 0x92, 0xcf, 0x0b), Col(0x64, 0x3d, 0xbd, 0xf1), Col(0xbe, 0x9b, 0xc5, 0x00), Col(0x68, 0x30, 0xb3, 0xfe)),
            State(Col(0x49, 0x15, 0x59, 0x8f), Col(0x55, 0xe5, 0xd7, 0xa0), Col(0xda, 0xca, 0x94, 0xfa), Col(0x1f, 0x0a, 0x63, 0xf7)));
    Round3(s);
    OneMore(s, key, x, 2, State(Col(0x49, 0x15, 0x59, 0x8f), Col(0x55, 0xe5, 0xd7, 0xa0), Col(0xda, 0xca, 0x94, 0xfa), Col(0x1f, 0x0a, 0x63, 0xf7)), State(Col(0xb6, 0xff, 0x74, 0x4e), Col(0xd2, 0xc2, 0xc9, 0xbf), Col(0x6c, 0x59, 0x0c, 0xbf), Col(0x04, 0x69, 0xbf, 0x41)),
            State(Col(0xfa, 0x63, 0x6a, 0x28), Col(0x25, 0xb3, 0x39, 0xc9), Col(0x40, 0x66, 0x8a, 0x31), Col(0x57, 0x24, 0x4d, 0x17)));
  }

  lemma Rounds2(s: Box, key: Keys, x: State)
    requires Figure7(s) && IsSub(s) && Up(FullRound, key, x, 3) == State(Col(0xfa, 0x63, 0x6a, 0x28), Col(0x25, 0xb3, 0x39, 0xc9), Col(0x40, 0x66, 0x8a, 0x31), Col(0x57, 0x24, 0x4d, 0x17))
    requires key(4) == State(Col(0x47, 0xf7, 0xf7, 0xbc), Col(0x95, 0x35, 0x3e, 0x03), Col(0xf9, 0x6c, 0x32, 0xbc), Col(0xfd, 0x05, 0x8d, 0xfd))
      && key(5) == State(Col(0x3c, 0xaa, 0xa3, 0xe8), Col(0xa9, 0x9f, 0x9d, 0xeb), Col(0x50, 0xf3, 0xaf, 0x57), Col(0xad, 0xf6, 0x22, 0xaa))
      && key(6) == State(Col(0x5e, 0x39, 0x0f, 0x7d), Col(0xf7, 0xa6, 0x92, 0x96), Col(0xa7, 0x55, 0x3d, 0xc1), Col(0x0a, 0xa3, 0x1f, 0x6b))
    ensures Up(FullRound, key, x, 6) == State(Col(0xc6, 0x2f, 0xe1, 0x09), Col(0xf7, 0x5e, 0xed, 0xc3), Col(0xcc, 0x79, 0x39, 0x5d), Col(0x84, 0xf9, 0xcf, 0x5d))
  {
    Round4(s);
    OneMore(s, key, x, 3, State(Col(0xfa, 0x63, 0x6a, 0x28), Col(0x25, 0xb3, 0x39, 0xc9), Col(0x40, 0x66, 0x8a, 0x31), Col(0x57, 0x24, 0x4d, 0x17)), State(Col(0x47, 0xf7, 0xf7, 0xbc), Col(0x95, 0x35, 0x3e, 0x03), Col(0xf9, 0x6c, 0x32, 0xbc), Col(0xfd, 0x05, 0x8d, 0xfd)),
            State(Col(0x24, 0x72, 0x40, 0x23), Col(0x69, 0x66, 0xb3, 0xfa), Col(0x6e, 0xd2, 0x75, 0x32), Col(0x88, 0x42, 0x5b, 0x6c)));
    Round5(s);
    OneMore(s, key, x, 4, State(Col(0x24, 0x72, 0x40, 0x23), Col(0x69, 0x66, 0xb3, 0xfa), Col(0x6e, 0xd2, 0x75, 0x32), Col(0x88, 0x42, 0x5b, 0x6c)), State(Col(0x3c, 0xaa, 0xa3, 0xe8), Col(0xa9, 0x9f, 0x9d, 0xeb), Col(0x50, 0xf3, 0xaf, 0x57), Col(0xad, 0xf6, 0x22, 0xaa)),
            State(Col(0xc8, 0x16, 0x77, 0xbc), Col(0x9b, 0x7a, 0xc9, 0x3b), Col(0x25, 0x02, 0x79, 0x92), Col(0xb0, 0x26, 0x19, 0x96)));
    Round6(s);
    OneMore(s, key, x, 5, State(Col(0xc8, 0x16, 0x77, 0xbc), Col(0x9b, 0x7a, 0xc9, 0x3b), Col(0x25, 0x02, 0x79, 0x92), Col(0xb0, 0x26, 0x19, 0x96)), State(Col(0x5e, 0x39, 0x0f, 0x7d), Col(0xf7, 0xa6, 0x92, 0x96), Col(0xa7, 0x55, 0x3d, 0xc1), Col(0x0a, 0xa3, 0x1f, 0x6b)),
            State(Col(0xc6, 0x2f, 0xe1, 0x09), Col(0xf7, 0x5e, 0xed, 0xc3), Col(0xcc, 0x79, 0x39, 0x5d), Col(0x84, 0xf9, 0xcf, 0x5d)));
  }

  lemma Rounds3(s: Box, key: Keys, x: State)
    requires Figure7(s) && IsSub(s) && Up(FullRound, key, x, 6) == State(Col(0xc6, 0x2f, 0xe1, 0x09), Col(0xf7, 0x5e, 0xed, 0xc3), Col(0xcc, 0x79, 0x39, 0x5d), Col(0x84, 0xf9, 0xcf, 0x5d))
    requires key(7) == State(Col(0x14, 0xf9, 0x70, 0x1a), Col(0xe3, 0x5f, 0xe2, 0x8c), Col(0x44, 0x0a, 0xdf, 0x4d), Col(0x4e, 0xa9, 0xc0, 0x26))
      && key(8) == State(Col(0x47, 0x43, 0x87, 0x35), Col(0xa4, 0x1c, 0x65, 0xb9), Col(0xe0, 0x16, 0xba, 0xf4), Col(0xae, 0xbf, 0x7a, 0xd2))
      && key(9) == State(Col(0x54, 0x99, 0x32, 0xd1), Col(0xf0, 0x85, 0x57, 0x68), Col(0x10, 0x93, 0xed, 0x9c), Col(0xbe, 0x2c, 0x97, 0x4e))
    ensures Up(FullRound, key, x, 9) == State(Col(0xbd, 0x6e, 0x7c, 0x3d), Col(0xf2, 0xb5, 0x77, 0x9e), Col(0x0b, 0x61, 0x21, 0x6e), Col(0x8b, 0x10, 0xb6, 0x89))
  {
    Round7(s);
    OneMore(s, key, x, 6, State(Col(0xc6, 0x2f, 0xe1, 0x09), Col(0xf7, 0x5e, 0xed, 0xc3), Col(0xcc, 0x79, 0x39, 0x5d), Col(0x84, 0xf9, 0xcf, 0x5d)), State(Col(0x14, 0xf9, 0x70, 0x1a), Col(0xe3, 0x5f, 0xe2, 0x8c), Col(0x44, 0x0a, 0xdf, 0x4d), Col(0x4e, 0xa9, 0xc0, 0x26)),
            State(Col(0xd1, 0x87, 0x6c, 0x0f), Col(0x79, 0xc4, 0x30, 0x0a), Col(0xb4, 0x55, 0x94, 0xad), Col(0xd6, 0x6f, 0xf4, 0x1f)));
    Round8(s);
    OneMore(s, key, x, 7, State(Col(0xd1, 0x87, 0x6c, 0x0f), Col(0x79, 0xc4, 0x30, 0x0a), Col(0xb4, 0x55, 0x94, 0xad), Col(0xd6, 0x6f, 0xf4, 0x1f)), State(Col(0x47, 0x43, 0x87, 0x35), Col(0xa4, 0x1c, 0x65, 0xb9), Col(0xe0, 0x16, 0xba, 0xf4), Col(0xae, 0xbf, 0x7a, 0xd2)),
            State(Col(0xfd, 0xe3, 0xba, 0xd2), Col(0x05, 0xe5, 0xd0, 0xd7), Col(0x35, 0x47, 0x96, 0x4e), Col(0xf1, 0xfe, 0x37, 0xf1)));
    Round9(s);
    OneMore(s, key, x, 8, State(Col(0xfd, 0xe3, 0xba, 0xd2), Col(0x05, 0xe5, 0xd0, 0xd7), Col(0x35, 0x47, 0x96, 0x4e), Col(0xf1, 0xfe, 0x37, 0xf1)), State(Col(0x54, 0x99, 0x32, 0xd1), Col(0xf0, 0x85, 0x57, 0x68), Col(0x10, 0x93, 0xed, 0x9c), Col(0xbe, 0x2c, 0x97, 0x4e)),
            State(Col(0xbd, 0x6e, 0x7c, 0x3d), Col(0xf2, 0xb5, 0x77, 0x9e), Col(0x0b, 0x61, 0x21, 0x6e), Col(0x8b, 0x10, 0xb6, 0x89)));
  }

  /** The cipher on the example of appendix C.1. */
  lemma ExampleC1(s: Box, key: Keys)
    requires Figure7(s) && IsSub(s)

    requires key(0) == State(Col(0x00, 0x01, 0x02, 0x03), Col(0x04, 0x05, 0x06, 0x07), Col(0x08, 0x09, 0x0a, 0x0b), Col(0x0c, 0x0d, 0x0e, 0x0f))
    requires key(1) == State(Col(0xd6, 0xaa, 0x74, 0xfd), Col(0xd2, 0xaf, 0x72, 0xfa), Col(0xda, 0xa6, 0x78, 0xf1), Col(0xd6, 0xab, 0x76, 0xfe))
    requires key(2) == State(Col(0xb6, 0x92, 0xcf, 0x0b), Col(0x64, 0x3d, 0xbd, 0xf1), Col(0xbe, 0x9b, 0xc5, 0x00), Col(0x68, 0x30, 0xb3, 0xfe))
    requires key(3) == State(Col(0xb6, 0xff, 0x74, 0x4e), Col(0xd2, 0xc2, 0xc9, 0xbf), Col(0x6c, 0x59, 0x0c, 0xbf), Col(0x04, 0x69, 0xbf, 0x41))
    requires key(4) == State(Col(0x47, 0xf7, 0xf7, 0xbc), Col(0x95, 0x35, 0x3e, 0x03), Col(0xf9, 0x6c, 0x32, 0xbc), Col(0xfd, 0x05, 0x8d, 0xfd))
    requires key(5) == State(Col(0x3c, 0xaa, 0xa3, 0xe8), Col(0xa9, 0x9f, 0x9d, 0xeb), Col(0x50, 0xf3, 0xaf, 0x57), Col(0xad, 0xf6, 0x22, 0xaa))
    requires key(6) == State(Col(0x5e, 0x39, 0x0f, 0x7d), Col(0xf7, 0xa6, 0x92, 0x96), Col(0xa7, 0x55, 0x3d, 0xc1), Col(0x0a, 0xa3, 0x1f, 0x6b))
    requires key(7) == State(Col(0x14, 0xf9, 0x70, 0x1a), Col(0xe3, 0x5f, 0xe2, 0x8c), Col(0x44, 0x0a, 0xdf, 0x4d), Col(0x4e, 0xa9, 0xc0, 0x26))
    requires key(8) == State(Col(0x47, 0x43, 0x87, 0x35), Col(0xa4, 0x1c, 0x65, 0xb9), Col(0xe0, 0x16, 0xba, 0xf4), Col(0xae, 0xbf, 0x7a, 0xd2))
    requires key(9) == State(Col(0x54, 0x99, 0x32, 0xd1), Col(0xf0, 0x85, 0x57, 0x68), Col(0x10, 0x93, 0xed, 0x9c), Col(0xbe, 0x2c, 0x97, 0x4e))
    requires key(10) == State(Col(0x13, 0x11, 0x1d, 0x7f), Col(0xe3, 0x94, 0x4a, 0x17), Col(0xf3, 0x07, 0xa7, 0x8b), Col(0x4d, 0x2b, 0x30, 0xc5))
    ensures Encrypt(key, 10, State(Col(0x00, 0x11, 0x22, 0x33), Col(0x44, 0x55, 0x66, 0x77), Col(0x88, 0x99, 0xaa, 0xbb), Col(0xcc, 0xdd, 0xee, 0xff))) == State(Col(0x69, 0xc4, 0xe0, 0xd8), Col(0x6a, 0x7b, 0x04, 0x30), Col(0xd8, 0xcd, 0xb7, 0x80), Col(0x70, 0xb4, 0xc5, 0x5a))
  {
    var x := AddKey(State(Col(0x00, 0x11, 0x22, 0x33), Col(0x44, 0x55, 0x66, 0x77), Col(0x88, 0x99, 0xaa, 0xbb), Col(0xcc, 0xdd, 0xee, 0xff)), key(0));
    assert x == State(Col(0x00, 0x10, 0x20, 0x30), Col(0x40, 0x50, 0x60, 0x70), Col(0x80, 0x90, 0xa0, 0xb0), Col(0xc0, 0xd0, 0xe0, 0xf0));
    assert Up(FullRound, key, x, 0) == x;
    Rounds1(s, key, x);
    Rounds2(s, key, x);
    Rounds3(s, key, x);
    LastRound(s);
    ShiftedByIs(s, State(Col(0xbd, 0x6e, 0x7c, 0x3d), Col(0xf2, 0xb5, 0x77, 0x9e), Col(0x0b, 0x61, 0x21, 0x6e), Col(0x8b, 0x10, 0xb6, 0x89)));
  }

  const KEY: seq<bv8> := [0x00, 0x01, 0x02, 0x03, 0x04, 0x05, 0x06, 0x07, 0x08, 0x09, 0x0a, 0x0b, 0x0c, 0x0d, 0x0e, 0x0f]
  const PLAIN: seq<bv8> := [0x00, 0x11, 0x22, 0x33, 0x44, 0x55, 0x66, 0x77, 0x88, 0x99, 0xaa, 0xbb, 0xcc, 0xdd, 0xee, 0xff]
  const SECRET: seq<bv8> := [0x69, 0xc4, 0xe0, 0xd8, 0x6a, 0x7b, 0x04, 0x30, 0xd8, 0xcd, 0xb7, 0x80, 0x70, 0xb4, 0xc5, 0x5a]

  lemma TheBox() returns (s: Box)
    ensures IsSub(s) && Figure7(s)
  {
    s := x => Sub(x);
    assert IsSub(s);
    SubIsFigure7(s);
  }

  lemma KeysC1(s: Box, w: Schedule)
    requires Figure7(s) && IsSub(s) && Expansion(w, 4) && Key(w, 0) == InState(KEY)
    ensures Encrypt(RoundKeys(w), 10, InState(PLAIN)) == InState(SECRET)
  {
    Keys(s, w);
    ExampleC1(s, RoundKeys(w));
  }

  lemma Answer(w: Schedule, nr: nat, y: seq<bv8>)
    requires Expansion(w, 4) && Key(w, 0) == InState(KEY) && |y| == 16
    requires nr == 10 && InState(y) == Encrypt(RoundKeys(w), nr, InState(PLAIN))
    ensures y == SECRET
  {
    var s := TheBox();
    KeysC1(s, w);
    InInjective(y, SECRET);
  }

  lemma FirstKey(key: seq<bv8>)
    requires |key| == 16
    ensures Expansion(W(key), 4) && NumRounds(|key|) == 10 && Key(W(key), 0) == InState(key)
  {
    WExpands(key);
    assert Expand(key, 4, 0) == InState(key).c0 && Expand(key, 4, 1) == InState(key).c1;
    assert Expand(key, 4, 2) == InState(key).c2 && Expand(key, 4, 3) == InState(key).c3;
  }

  lemma Known(key: seq<bv8>, y: seq<bv8>)
    requires |key| == 16 && InState(key) == InState(KEY)
    requires |y| == 16 && InState(y) == Encrypt(RoundKeys(W(key)), NumRounds(|key|), InState(PLAIN))
    ensures y == SECRET
  {
    FirstKey(key);
    Answer(W(key), NumRounds(|key|), y);
  }

  method Keyed(c: AesCtx, t: Tables, key: seq<bv8>, x: seq<bv8>) returns (y: seq<bv8>)
    requires TablesOk(t) && c.ek.Length == 120 && KeyLength(|key|) && |x| == 16
    modifies c, c.ek
    ensures |y| == 16 && InState(y) == Encrypt(RoundKeys(W(key)), NumRounds(|key|), InState(x))
  {
    var err := c.SetKey(t, key);
    y := c.EncryptBlock(t, x, key);
  }

  /** set_key and encrypt give the ciphertext of appendix C.1. */
  method Vector(c: AesCtx, t: Tables, key: seq<bv8>, x: seq<bv8>) returns (y: seq<bv8>)
    requires TablesOk(t) && c.ek.Length == 120 && key == KEY && x == PLAIN
    modifies c, c.ek
    ensures y == SECRET
  {
    y := Keyed(c, t, key, x);
    Known(key, y);
  }

}
