/** The S-boxes of Serpent, bit-sliced: bit `i` of four words is one four-bit S-box input. */
module SerpentBoxes {
  import opened Bits

  datatype Quad = Quad(a: Word, b: Word, c: Word, d: Word)

  /** The four-bit value made of one bit of each word. */
  function Nibble(b0: bool, b1: bool, b2: bool, b3: bool): (v: nat)
    ensures v < 16
  {
    (if b0 then 1 else 0) + (if b1 then 2 else 0) + (if b2 then 4 else 0) + (if b3 then 8 else 0)
  }

  // The published S-boxes and their inverses.

  function Box0(v: nat): nat {
    if v == 0 then 3 else if v == 1 then 8 else if v == 2 then 15 else if v == 3 then 1 else
    if v == 4 then 10 else if v == 5 then 6 else if v == 6 then 5 else if v == 7 then 11 else
    if v == 8 then 14 else if v == 9 then 13 else if v == 10 then 4 else if v == 11 then 2 else
    if v == 12 then 7 else if v == 13 then 0 else if v == 14 then 9 else 12
  }

  function InvBox0(v: nat): nat {
    if v == 0 then 13 else if v == 1 then 3 else if v == 2 then 11 else if v == 3 then 0 else
    if v == 4 then 10 else if v == 5 then 6 else if v == 6 then 5 else if v == 7 then 12 else
    if v == 8 then 1 else if v == 9 then 14 else if v == 10 then 4 else if v == 11 then 7 else
    if v == 12 then 15 else if v == 13 then 9 else if v == 14 then 8 else 2
  }

  function Box1(v: nat): nat {
    if v == 0 then 15 else if v == 1 then 12 else if v == 2 then 2 else if v == 3 then 7 else
    if v == 4 then 9 else if v == 5 then 0 else if v == 6 then 5 else if v == 7 then 10 else
    if v == 8 then 1 else if v == 9 then 11 else if v == 10 then 14 else if v == 11 then 8 else
    if v == 12 then 6 else if v == 13 then 13 else if v == 14 then 3 else 4
  }

  function InvBox1(v: nat): nat {
    if v == 0 then 5 else if v == 1 then 8 else if v == 2 then 2 else if v == 3 then 14 else
    if v == 4 then 15 else if v == 5 then 6 else if v == 6 then 12 else if v == 7 then 3 else
    if v == 8 then 11 else if v == 9 then 4 else if v == 10 then 7 else if v == 11 then 9 else
    if v == 12 then 1 else if v == 13 then 13 else if v == 14 then 10 else 0
  }

  function Box2(v: nat): nat {
    if v == 0 then 8 else if v == 1 then 6 else if v == 2 then 7 else if v == 3 then 9 else
    if v == 4 then 3 else if v == 5 then 12 else if v == 6 then 10 else if v == 7 then 15 else
    if v == 8 then 13 else if v == 9 then 1 else if v == 10 then 14 else if v == 11 then 4 else
    if v == 12 then 0 else if v == 13 then 11 else if v == 14 then 5 else 2
  }

  function InvBox2(v: nat): nat {
    if v == 0 then 12 else if v == 1 then 9 else if v == 2 then 15 else if v == 3 then 4 else
    if v == 4 then 11 else if v == 5 then 14 else if v == 6 then 1 else if v == 7 then 2 else
    if v == 8 then 0 else if v == 9 then 3 else if v == 10 then 6 else if v == 11 then 13 else
    if v == 12 then 5 else if v == 13 then 8 else if v == 14 then 10 else 7
  }

  function Box3(v: nat): nat {
    if v == 0 then 0 else if v == 1 then 15 else if v == 2 then 11 else if v == 3 then 8 else
    if v == 4 then 12 else if v == 5 then 9 else if v == 6 then 6 else if v == 7 then 3 else
    if v == 8 then 13 else if v == 9 then 1 else if v == 10 then 2 else if v == 11 then 4 else
    if v == 12 then 10 else if v == 13 then 7 else if v == 14 then 5 else 14
  }

  function InvBox3(v: nat): nat {
    if v == 0 then 0 else if v == 1 then 9 else if v == 2 then 10 else if v == 3 then 7 else
    if v == 4 then 11 else if v == 5 then 14 else if v == 6 then 6 else if v == 7 then 13 else
    if v == 8 then 3 else if v == 9 then 5 else if v == 10 then 12 else if v == 11 then 2 else
    if v == 12 then 4 else if v == 13 then 8 else if v == 14 then 15 else 1
  }

  function Box4(v: nat): nat {
    if v == 0 then 1 else if v == 1 then 15 else if v == 2 then 8 else if v == 3 then 3 else
    if v == 4 then 12 else if v == 5 then 0 else if v == 6 then 11 else if v == 7 then 6 else
    if v == 8 then 2 else if v == 9 then 5 else if v == 10 then 4 else if v == 11 then 10 else
    if v == 12 then 9 else if v == 13 then 14 else if v == 14 then 7 else 13
  }

  function InvBox4(v: nat): nat {
    if v == 0 then 5 else if v == 1 then 0 else if v == 2 then 8 else if v == 3 then 3 else
    if v == 4 then 10 else if v == 5 then 9 else if v == 6 then 7 else if v == 7 then 14 else
    if v == 8 then 2 else if v == 9 then 12 else if v == 10 then 11 else if v == 11 then 6 else
    if v == 12 then 4 else if v == 13 then 15 else if v == 14 then 13 else 1
  }

  function Box5(v: nat): nat {
    if v == 0 then 15 else if v == 1 then 5 else if v == 2 then 2 else if v == 3 then 11 else
    if v == 4 then 4 else if v == 5 then 10 else if v == 6 then 9 else if v == 7 then 12 else
    if v == 8 then 0 else if v == 9 then 3 else if v == 10 then 14 else if v == 11 then 8 else
    if v == 12 then 13 else if v == 13 then 6 else if v == 14 then 7 else 1
  }

  function InvBox5(v: nat): nat {
    if v == 0 then 8 else if v == 1 then 15 else if v == 2 then 2 else if v == 3 then 9 else
    if v == 4 then 4 else if v == 5 then 1 else if v == 6 then 13 else if v == 7 then 14 else
    if v == 8 then 11 else if v == 9 then 6 else if v == 10 then 5 else if v == 11 then 3 else
    if v == 12 then 7 else if v == 13 then 12 else if v == 14 then 10 else 0
  }

  function Box6(v: nat): nat {
    if v == 0 then 7 else if v == 1 then 2 else if v == 2 then 12 else if v == 3 then 5 else
    if v == 4 then 8 else if v == 5 then 4 else if v == 6 then 6 else if v == 7 then 11 else
    if v == 8 then 14 else if v == 9 then 9 else if v == 10 then 1 else if v == 11 then 15 else
    if v == 12 then 13 else if v == 13 then 3 else if v == 14 then 10 else 0
  }

  function InvBox6(v: nat): nat {
    if v == 0 then 15 else if v == 1 then 10 else if v == 2 then 1 else if v == 3 then 13 else
    if v == 4 then 5 else if v == 5 then 3 else if v == 6 then 6 else if v == 7 then 0 else
    if v == 8 then 4 else if v == 9 then 9 else if v == 10 then 14 else if v == 11 then 7 else
    if v == 12 then 2 else if v == 13 then 12 else if v == 14 then 8 else 11
  }

  function Box7(v: nat): nat {
    if v == 0 then 1 else if v == 1 then 13 else if v == 2 then 15 else if v == 3 then 0 else
    if v == 4 then 14 else if v == 5 then 8 else if v == 6 then 2 else if v == 7 then 11 else
    if v == 8 then 7 else if v == 9 then 4 else if v == 10 then 12 else if v == 11 then 10 else
    if v == 12 then 9 else if v == 13 then 3 else if v == 14 then 5 else 6
  }

  function InvBox7(v: nat): nat {
    if v == 0 then 3 else if v == 1 then 0 else if v == 2 then 6 else if v == 3 then 13 else
    if v == 4 then 9 else if v == 5 then 14 else if v == 6 then 15 else if v == 7 then 8 else
    if v == 8 then 5 else if v == 9 then 12 else if v == 10 then 11 else if v == 11 then 7 else
    if v == 12 then 10 else if v == 13 then 1 else if v == 14 then 4 else 2
  }

  method S0(x0: Word, x1: Word, x2: Word, x3: Word, x4: Word) returns (y0: Word, y1: Word, y2: Word, y3: Word, y4: Word)
    ensures forall i :: 0 <= i < 32 ==>
      Nibble(y2[i], y1[i], y3[i], y0[i]) == Box0(Nibble(x0[i], x1[i], x2[i], x3[i]))
  {
    y0, y1, y2, y3, y4 := x0, x1, x2, x3, x4;
    y4 := y3;
    y3 := Or(y3, y0);
    y0 := Xor(y0, y4);
    y4 := Xor(y4, y2);
    y4 := Not(y4);
    y3 := Xor(y3, y1);
    y1 := And(y1, y0);
    y1 := Xor(y1, y4);
    y2 := Xor(y2, y0);
    y0 := Xor(y0, y3);
    y4 := Or(y4, y0);
    y0 := Xor(y0, y2);
    y2 := And(y2, y1);
    y3 := Xor(y3, y2);
    y1 := Not(y1);
    y2 := Xor(y2, y4);
    y1 := Xor(y1, y2);
  }

  method SI0(x0: Word, x1: Word, x2: Word, x3: Word, x4: Word) returns (y0: Word, y1: Word, y2: Word, y3: Word, y4: Word)
    ensures forall i :: 0 <= i < 32 ==>
      Nibble(y2[i], y4[i], y1[i], y0[i]) == InvBox0(Nibble(x0[i], x1[i], x2[i], x3[i]))
  {
    y0, y1, y2, y3, y4 := x0, x1, x2, x3, x4;
    y4 := y3;
    y1 := Xor(y1, y0);
    y3 := Or(y3, y1);
    y4 := Xor(y4, y1);
    y0 := Not(y0);
    y2 := Xor(y2, y3);
    y3 := Xor(y3, y0);
    y0 := And(y0, y1);
    y0 := Xor(y0, y2);
    y2 := And(y2, y3);
    y3 := Xor(y3, y4);
    y2 := Xor(y2, y3);
    y1 := Xor(y1, y3);
    y3 := And(y3, y0);
    y1 := Xor(y1, y0);
    y0 := Xor(y0, y2);
    y4 := Xor(y4, y3);
  }

  method S1(x0: Word, x1: Word, x2: Word, x3: Word, x4: Word) returns (y0: Word, y1: Word, y2: Word, y3: Word, y4: Word)
    ensures forall i :: 0 <= i < 32 ==>
      Nibble(y4[i], y2[i], y3[i], y0[i]) == Box1(Nibble(x0[i], x1[i], x2[i], x3[i]))
  {
    y0, y1, y2, y3, y4 := x0, x1, x2, x3, x4;
    y4 := y1;
    y1 := Xor(y1, y0);
    y0 := Xor(y0, y3);
    y3 := Not(y3);
    y4 := And(y4, y1);
    y0 := Or(y0, y1);
    y3 := Xor(y3, y2);
    y0 := Xor(y0, y3);
    y1 := Xor(y1, y3);
    y3 := Xor(y3, y4);
    y1 := Or(y1, y4);
    y4 := Xor(y4, y2);
    y2 := And(y2, y0);
    y2 := Xor(y2, y1);
    y1 := Or(y1, y0);
    y0 := Not(y0);
    y0 := Xor(y0, y2);
    y4 := Xor(y4, y1);
  }

  method SI1(x0: Word, x1: Word, x2: Word, x3: Word, x4: Word) returns (y0: Word, y1: Word, y2: Word, y3: Word, y4: Word)
    ensures forall i :: 0 <= i < 32 ==>
      Nibble(y4[i], y1[i], y2[i], y3[i]) == InvBox1(Nibble(x0[i], x1[i], x2[i], x3[i]))
  {
    y0, y1, y2, y3, y4 := x0, x1, x2, x3, x4;
    y1 := Xor(y1, y3);
    y4 := y0;
    y0 := Xor(y0, y2);
    y2 := Not(y2);
    y4 := Or(y4, y1);
    y4 := Xor(y4, y3);
    y3 := And(y3, y1);
    y1 := Xor(y1, y2);
    y2 := And(y2, y4);
    y4 := Xor(y4, y1);
    y1 := Or(y1, y3);
    y3 := Xor(y3, y0);
    y2 := Xor(y2, y0);
    y0 := Or(y0, y4);
    y2 := Xor(y2, y4);
    y1 := Xor(y1, y0);
    y4 := Xor(y4, y1);
  }

  method S2(x0: Word, x1: Word, x2: Word, x3: Word, x4: Word) returns (y0: Word, y1: Word, y2: Word, y3: Word, y4: Word)
    ensures forall i :: 0 <= i < 32 ==>
      Nibble(y4[i], y1[i], y0[i], y3[i]) == Box2(Nibble(x0[i], x1[i], x2[i], x3[i]))
  {
    y0, y1, y2, y3, y4 := x0, x1, x2, x3, x4;
    y3 := Not(y3);
    y1 := Xor(y1, y0);
    y4 := y0;
    y0 := And(y0, y2);
    y0 := Xor(y0, y3);
    y3 := Or(y3, y4);
    y2 := Xor(y2, y1);
    y3 := Xor(y3, y1);
    y1 := And(y1, y0);
    y0 := Xor(y0, y2);
    y2 := And(y2, y3);
    y3 := Or(y3, y1);
    y0 := Not(y0);
    y3 := Xor(y3, y0);
    y4 := Xor(y4, y0);
    y0 := Xor(y0, y2);
    y1 := Or(y1, y2);
  }

  method SI2(x0: Word, x1: Word, x2: Word, x3: Word, x4: Word) returns (y0: Word, y1: Word, y2: Word, y3: Word, y4: Word)
    ensures forall i :: 0 <= i < 32 ==>
      Nibble(y1[i], y4[i], y3[i], y2[i]) == InvBox2(Nibble(x0[i], x1[i], x2[i], x3[i]))
  {
    y0, y1, y2, y3, y4 := x0, x1, x2, x3, x4;
    y2 := Xor(y2, y1);
    y4 := y3;
    y3 := Not(y3);
    y3 := Or(y3, y2);
    y2 := Xor(y2, y4);
    y4 := Xor(y4, y0);
    y3 := Xor(y3, y1);
    y1 := Or(y1, y2);
    y2 := Xor(y2, y0);
    y1 := Xor(y1, y4);
    y4 := Or(y4, y3);
    y2 := Xor(y2, y3);
    y4 := Xor(y4, y2);
    y2 := And(y2, y1);
    y2 := Xor(y2, y3);
    y3 := Xor(y3, y4);
    y4 := Xor(y4, y0);
  }

  method S3(x0: Word, x1: Word, x2: Word, x3: Word, x4: Word) returns (y0: Word, y1: Word, y2: Word, y3: Word, y4: Word)
    ensures forall i :: 0 <= i < 32 ==>
      Nibble(y3[i], y4[i], y1[i], y0[i]) == Box3(Nibble(x0[i], x1[i], x2[i], x3[i]))
  {
    y0, y1, y2, y3, y4 := x0, x1, x2, x3, x4;
    y4 := y1;
    y1 := Xor(y1, y3);
    y3 := Or(y3, y0);
    y4 := And(y4, y0);
    y0 := Xor(y0, y2);
    y2 := Xor(y2, y1);
    y1 := And(y1, y3);
    y2 := Xor(y2, y3);
    y0 := Or(y0, y4);
    y4 := Xor(y4, y3);
    y1 := Xor(y1, y0);
    y0 := And(y0, y3);
    y3 := And(y3, y4);
    y3 := Xor(y3, y2);
    y4 := Or(y4, y1);
    y2 := And(y2, y1);
    y4 := Xor(y4, y3);
    y0 := Xor(y0, y3);
    y3 := Xor(y3, y2);
  }

  method SI3(x0: Word, x1: Word, x2: Word, x3: Word, x4: Word) returns (y0: Word, y1: Word, y2: Word, y3: Word, y4: Word)
    ensures forall i :: 0 <= i < 32 ==>
      Nibble(y2[i], y0[i], y4[i], y3[i]) == InvBox3(Nibble(x0[i], x1[i], x2[i], x3[i]))
  {
    y0, y1, y2, y3, y4 := x0, x1, x2, x3, x4;
    y2 := Xor(y2, y1);
    y4 := y1;
    y1 := And(y1, y2);
    y1 := Xor(y1, y0);
    y0 := Or(y0, y4);
    y4 := Xor(y4, y3);
    y0 := Xor(y0, y3);
    y3 := Or(y3, y1);
    y1 := Xor(y1, y2);
    y1 := Xor(y1, y3);
    y0 := Xor(y0, y2);
    y2 := Xor(y2, y3);
    y3 := And(y3, y1);
    y1 := Xor(y1, y0);
    y0 := And(y0, y2);
    y4 := Xor(y4, y3);
    y3 := Xor(y3, y0);
    y0 := Xor(y0, y1);
  }

  method S4(x0: Word, x1: Word, x2: Word, x3: Word, x4: Word) returns (y0: Word, y1: Word, y2: Word, y3: Word, y4: Word)
    ensures forall i :: 0 <= i < 32 ==>
      Nibble(y1[i], y2[i], y3[i], y4[i]) == Box4(Nibble(x0[i], x1[i], x2[i], x3[i]))
  {
    y0, y1, y2, y3, y4 := x0, x1, x2, x3, x4;
    y4 := y3;
    y3 := And(y3, y0);
    y0 := Xor(y0, y4);
    y3 := Xor(y3, y2);
    y2 := Or(y2, y4);
    y0 := Xor(y0, y1);
    y4 := Xor(y4, y3);
    y2 := Or(y2, y0);
    y2 := Xor(y2, y1);
    y1 := And(y1, y0);
    y1 := Xor(y1, y4);
    y4 := And(y4, y2);
    y2 := Xor(y2, y3);
    y4 := Xor(y4, y0);
    y3 := Or(y3, y1);
    y1 := Not(y1);
    y3 := Xor(y3, y0);
  }

  method SI4(x0: Word, x1: Word, x2: Word, x3: Word, x4: Word) returns (y0: Word, y1: Word, y2: Word, y3: Word, y4: Word)
    ensures forall i :: 0 <= i < 32 ==>
      Nibble(y0[i], y2[i], y4[i], y3[i]) == InvBox4(Nibble(x0[i], x1[i], x2[i], x3[i]))
  {
    y0, y1, y2, y3, y4 := x0, x1, x2, x3, x4;
    y2 := Xor(y2, y3);
    y4 := y0;
    y0 := And(y0, y1);
    y0 := Xor(y0, y2);
    y2 := Or(y2, y3);
    y4 := Not(y4);
    y1 := Xor(y1, y0);
    y0 := Xor(y0, y2);
    y2 := And(y2, y4);
    y2 := Xor(y2, y0);
    y0 := Or(y0, y4);
    y0 := Xor(y0, y3);
    y3 := And(y3, y2);
    y4 := Xor(y4, y3);
    y3 := Xor(y3, y1);
    y1 := And(y1, y0);
    y4 := Xor(y4, y1);
    y0 := Xor(y0, y3);
  }

  method S5(x0: Word, x1: Word, x2: Word, x3: Word, x4: Word) returns (y0: Word, y1: Word, y2: Word, y3: Word, y4: Word)
    ensures forall i :: 0 <= i < 32 ==>
      Nibble(y4[i], y0[i], y1[i], y3[i]) == Box5(Nibble(x0[i], x1[i], x2[i], x3[i]))
  {
    y0, y1, y2, y3, y4 := x0, x1, x2, x3, x4;
    y4 := y1;
    y1 := Or(y1, y0);
    y2 := Xor(y2, y1);
    y3 := Not(y3);
    y4 := Xor(y4, y0);
    y0 := Xor(y0, y2);
    y1 := And(y1, y4);
    y4 := Or(y4, y3);
    y4 := Xor(y4, y0);
    y0 := And(y0, y3);
    y1 := Xor(y1, y3);
    y3 := Xor(y3, y2);
    y0 := Xor(y0, y1);
    y2 := And(y2, y4);
    y1 := Xor(y1, y2);
    y2 := And(y2, y0);
    y3 := Xor(y3, y2);
  }

  method SI5(x0: Word, x1: Word, x2: Word, x3: Word, x4: Word) returns (y0: Word, y1: Word, y2: Word, y3: Word, y4: Word)
    ensures forall i :: 0 <= i < 32 ==>
      Nibble(y1[i], y4[i], y0[i], y2[i]) == InvBox5(Nibble(x0[i], x1[i], x2[i], x3[i]))
  {
    y0, y1, y2, y3, y4 := x0, x1, x2, x3, x4;
    y4 := y1;
    y1 := Or(y1, y2);
    y2 := Xor(y2, y4);
    y1 := Xor(y1, y3);
    y3 := And(y3, y4);
    y2 := Xor(y2, y3);
    y3 := Or(y3, y0);
    y0 := Not(y0);
    y3 := Xor(y3, y2);
    y2 := Or(y2, y0);
    y4 := Xor(y4, y1);
    y2 := Xor(y2, y4);
    y4 := And(y4, y0);
    y0 := Xor(y0, y1);
    y1 := Xor(y1, y3);
    y0 := And(y0, y2);
    y2 := Xor(y2, y3);
    y0 := Xor(y0, y2);
    y2 := Xor(y2, y4);
    y4 := Xor(y4, y3);
  }

  method S6(x0: Word, x1: Word, x2: Word, x3: Word, x4: Word) returns (y0: Word, y1: Word, y2: Word, y3: Word, y4: Word)
    ensures forall i :: 0 <= i < 32 ==>
      Nibble(y2[i], y4[i], y1[i], y3[i]) == Box6(Nibble(x0[i], x1[i], x2[i], x3[i]))
  {
    y0, y1, y2, y3, y4 := x0, x1, x2, x3, x4;
    y4 := y1;
    y3 := Xor(y3, y0);
    y1 := Xor(y1, y2);
    y2 := Xor(y2, y0);
    y0 := And(y0, y3);
    y1 := Or(y1, y3);
    y4 := Not(y4);
    y0 := Xor(y0, y1);
    y1 := Xor(y1, y2);
    y3 := Xor(y3, y4);
    y4 := Xor(y4, y0);
    y2 := And(y2, y0);
    y4 := Xor(y4, y1);
    y2 := Xor(y2, y3);
    y3 := And(y3, y1);
    y3 := Xor(y3, y0);
    y1 := Xor(y1, y2);
  }

  method SI6(x0: Word, x1: Word, x2: Word, x3: Word, x4: Word) returns (y0: Word, y1: Word, y2: Word, y3: Word, y4: Word)
    ensures forall i :: 0 <= i < 32 ==>
      Nibble(y2[i], y4[i], y3[i], y0[i]) == InvBox6(Nibble(x0[i], x1[i], x2[i], x3[i]))
  {
    y0, y1, y2, y3, y4 := x0, x1, x2, x3, x4;
    y0 := Xor(y0, y2);
    y4 := y0;
    y0 := And(y0, y3);
    y2 := Xor(y2, y3);
    y0 := Xor(y0, y2);
    y3 := Xor(y3, y1);
    y2 := Or(y2, y4);
    y2 := Xor(y2, y3);
    y3 := And(y3, y0);
    y0 := Not(y0);
    y3 := Xor(y3, y1);
    y1 := And(y1, y2);
    y4 := Xor(y4, y0);
    y3 := Xor(y3, y4);
    y4 := Xor(y4, y2);
    y0 := Xor(y0, y1);
    y2 := Xor(y2, y0);
  }

  method S7(x0: Word, x1: Word, x2: Word, x3: Word, x4: Word) returns (y0: Word, y1: Word, y2: Word, y3: Word, y4: Word)
    ensures forall i :: 0 <= i < 32 ==>
      Nibble(y4[i], y2[i], y3[i], y0[i]) == Box7(Nibble(x0[i], x1[i], x2[i], x3[i]))
  {
    y0, y1, y2, y3, y4 := x0, x1, x2, x3, x4;
    y1 := Not(y1);
    y4 := y1;
    y0 := Not(y0);
    y1 := And(y1, y2);
    y1 := Xor(y1, y3);
    y3 := Or(y3, y4);
    y4 := Xor(y4, y2);
    y2 := Xor(y2, y3);
    y3 := Xor(y3, y0);
    y0 := Or(y0, y1);
    y2 := And(y2, y0);
    y0 := Xor(y0, y4);
    y4 := Xor(y4, y3);
    y3 := And(y3, y0);
    y4 := Xor(y4, y1);
    y2 := Xor(y2, y4);
    y3 := Xor(y3, y1);
    y4 := Or(y4, y0);
    y4 := Xor(y4, y1);
  }

  method SI7(x0: Word, x1: Word, x2: Word, x3: Word, x4: Word) returns (y0: Word, y1: Word, y2: Word, y3: Word, y4: Word)
    ensures forall i :: 0 <= i < 32 ==>
      Nibble(y1[i], y3[i], y0[i], y4[i]) == InvBox7(Nibble(x0[i], x1[i], x2[i], x3[i]))
  {
    y0, y1, y2, y3, y4 := x0, x1, x2, x3, x4;
    y4 := y3;
    y3 := And(y3, y0);
    y0 := Xor(y0, y2);
    y2 := Or(y2, y4);
    y4 := Xor(y4, y1);
    y0 := Not(y0);
    y1 := Or(y1, y3);
    y4 := Xor(y4, y0);
    y0 := And(y0, y2);
    y0 := Xor(y0, y1);
    y1 := And(y1, y2);
    y3 := Xor(y3, y2);
    y4 := Xor(y4, y3);
    y2 := And(y2, y3);
    y3 := Or(y3, y0);
    y1 := Xor(y1, y4);
    y3 := Xor(y3, y4);
    y4 := And(y4, y0);
    y4 := Xor(y4, y2);
  }
}
