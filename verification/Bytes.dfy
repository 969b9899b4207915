/** Bytes and 32-bit little-endian words. */
module Bytes {

  type byte = x: int | 0 <= x < 256

  type bytes = seq<byte>

  /** Pieces back to back. */
  function Flat(pieces: seq<bytes>): (whole: bytes) {
    if pieces == [] then [] else pieces[0] + Flat(pieces[1..])
  }

  lemma {:induction false} FlatAppend(pieces: seq<bytes>, piece: bytes)
    ensures Flat(pieces + [piece]) == Flat(pieces) + piece
  {
    if pieces == [] {
      assert [] + [piece] == [piece] && [piece][1..] == [];
    } else {
      assert (pieces + [piece])[1..] == pieces[1..] + [piece];
      FlatAppend(pieces[1..], piece);
    }
  }

  const WORD_LIMIT := 0x1_0000_0000

  function Digits(n: nat, count: nat): (b: bytes)
    ensures |b| == count
  {
    if count == 0 then [] else [n % 256] + Digits(n / 256, count - 1)
  }

  function Number(b: bytes): (n: nat) {
    if b == [] then 0 else b[0] as int + 256 * Number(b[1..])
  }

  function Power(count: nat): (n: nat)
    ensures n > 0
  {
    if count == 0 then 1 else 256 * Power(count - 1)
  }

  lemma {:induction false} NumberIsBounded(b: bytes)
    ensures Number(b) < Power(|b|)
  {
    if b != [] {
      NumberIsBounded(b[1..]);
    }
  }

  lemma {:induction false} DigitsOfNumber(b: bytes)
    ensures Digits(Number(b), |b|) == b
  {
    if b != [] {
      DigitsOfNumber(b[1..]);
      assert Number(b) / 256 == Number(b[1..]) && Number(b) % 256 == b[0];
    }
  }

  lemma {:induction false} NumberOfDigits(n: nat, count: nat)
    requires n < Power(count)
    ensures Number(Digits(n, count)) == n
  {
    if count > 0 {
      NumberOfDigits(n / 256, count - 1);
      assert Digits(n, count)[1..] == Digits(n / 256, count - 1);
    }
  }

  /** A number stored as an unsigned 32-bit word; what does not fit is cut off. */
  function Word(n: nat): (w: bytes)
    ensures |w| == 4
  {
    Digits(n % WORD_LIMIT, 4)
  }

  /** The bytes of a word, lowest first. */
  lemma WordIsLittleEndian(a: byte, b: byte, c: byte, d: byte)
    ensures Word(a as int + 0x100 * b as int + 0x1_0000 * c as int + 0x100_0000 * d as int) == [a, b, c, d]
  {
    var n := a as int + 0x100 * b as int + 0x1_0000 * c as int + 0x100_0000 * d as int;
    assert n % WORD_LIMIT == n;
    var n1 := b as int + 0x100 * c as int + 0x1_0000 * d as int;
    var n2 := c as int + 0x100 * d as int;
    assert n / 256 == n1 && n % 256 == a;
    assert n1 / 256 == n2 && n1 % 256 == b;
    assert n2 / 256 == d as int && n2 % 256 == c;
    assert Digits(d as int, 1) == [d] && Digits(n2, 2) == [c, d] && Digits(n1, 3) == [b, c, d];
  }

  /** The word a file begins with. */
  function FirstWord(b: bytes): (n: nat)
    requires |b| >= 4
    ensures n < WORD_LIMIT
  {
    WordIsBounded(b[..4]);
    Number(b[..4])
  }

  lemma WordIsBounded(b: bytes)
    requires |b| == 4
    ensures Number(b) < WORD_LIMIT
  {
    NumberIsBounded(b);
    assert Power(4) == 256 * 256 * 256 * 256 by {
      assert Power(2) == 256 * 256;
    }
  }

  lemma WordIsReadBack(n: nat, others: bytes)
    ensures FirstWord(Word(n) + others) == n % WORD_LIMIT && (Word(n) + others)[4..] == others
  {
    assert Power(4) == WORD_LIMIT by {
      assert Power(2) == 256 * 256;
    }
    NumberOfDigits(n % WORD_LIMIT, 4);
    assert (Word(n) + others)[..4] == Word(n);
  }

  lemma WordIsRewritten(b: bytes)
    requires |b| >= 4
    ensures Word(FirstWord(b)) + b[4..] == b
  {
    DigitsOfNumber(b[..4]);
  }

  /** Equally long beginnings of one file are equal, and so is what follows them. */
  lemma SameBeginning(x: bytes, a: bytes, y: bytes, b: bytes)
    requires x + a == y + b && |x| == |y|
    ensures x == y && a == b
  {
    assert x == (x + a)[..|x|] && y == (y + b)[..|y|];
    assert a == (x + a)[|x|..] && b == (y + b)[|y|..];
  }
}
