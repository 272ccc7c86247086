/** 32-bit words as their bits, bit `i` at index `i`. */
module Bits {

  type Word = s: seq<bool> | |s| == 32 witness seq(32, i => false)

  function Xor(x: Word, y: Word): (r: Word)
    ensures forall i :: 0 <= i < 32 ==> r[i] == (x[i] != y[i])
  {
    seq(32, i requires 0 <= i < 32 => x[i] != y[i])
  }

  function And(x: Word, y: Word): (r: Word)
    ensures forall i :: 0 <= i < 32 ==> r[i] == (x[i] && y[i])
  {
    seq(32, i requires 0 <= i < 32 => x[i] && y[i])
  }

  function Or(x: Word, y: Word): (r: Word)
    ensures forall i :: 0 <= i < 32 ==> r[i] == (x[i] || y[i])
  {
    seq(32, i requires 0 <= i < 32 => x[i] || y[i])
  }

  function Not(x: Word): (r: Word)
    ensures forall i :: 0 <= i < 32 ==> r[i] == !x[i]
  {
    seq(32, i requires 0 <= i < 32 => !x[i])
  }

  /** Shift towards the high bits. */
  function Shl(x: Word, n: nat): (r: Word)
    ensures forall i :: 0 <= i < 32 ==> r[i] == (i >= n && x[i - n])
  {
    seq(32, i requires 0 <= i < 32 => i >= n && x[i - n])
  }

  function Rol(x: Word, n: nat): (r: Word)
    requires n < 32
    ensures forall i :: 0 <= i < 32 ==> r[i] == x[if i >= n then i - n else i + 32 - n]
  {
    seq(32, i requires 0 <= i < 32 => x[if i >= n then i - n else i + 32 - n])
  }

  function Ror(x: Word, n: nat): (r: Word)
    requires n < 32
    ensures forall i :: 0 <= i < 32 ==> r[i] == x[if i + n < 32 then i + n else i + n - 32]
  {
    seq(32, i requires 0 <= i < 32 => x[if i + n < 32 then i + n else i + n - 32])
  }

  lemma RorRol(x: Word, n: nat)
    requires n < 32
    ensures Ror(Rol(x, n), n) == x
  {
  }

  /** The four bytes in reverse order. */
  function Swab(x: Word): (r: Word)
    ensures forall i :: 0 <= i < 32 ==> r[i] == x[8 * (3 - i / 8) + i % 8]
  {
    seq(32, i requires 0 <= i < 32 => x[8 * (3 - i / 8) + i % 8])
  }

  lemma SwabTwice(x: Word)
    ensures Swab(Swab(x)) == x
  {
    var r := Swab(Swab(x));
    forall i | 0 <= i < 32 ensures r[i] == x[i] {
      var j := 8 * (3 - i / 8) + i % 8;
      assert j / 8 == 3 - i / 8 && j % 8 == i % 8;
    }
  }
}
