/** Bytes as the source's conversions make them. */
module Words {
  type Byte = n: nat | n < 256

  /** A conversion to a byte keeps the low eight bits, also of a negative number. */
  function ToByte(x: int): Byte { x % 256 }

  /** The number two or four bytes spell, the highest first. */
  function Spell2(a: nat, b: nat): nat { a * 0x100 + b }

  function Spell4(a: nat, b: nat, c: nat, d: nat): nat {
    a * 0x100_0000 + b * 0x1_0000 + c * 0x100 + d
  }

  /** The last digit and the digits before it are determined. */
  lemma LastDigit(x: int, d: Byte, y: int, e: Byte)
    ensures x * 0x100 + d == y * 0x100 + e <==> x == y && d == e
  {
  }

  lemma Spell2Unique(a: Byte, b: Byte, e: Byte, f: Byte)
    ensures Spell2(a, b) == Spell2(e, f) <==> a == e && b == f
  {
    LastDigit(a, b, e, f);
  }

  lemma Spell4Unique(a: Byte, b: Byte, c: Byte, d: Byte, e: Byte, f: Byte, g: Byte, h: Byte)
    ensures Spell4(a, b, c, d) == Spell4(e, f, g, h) <==> a == e && b == f && c == g && d == h
  {
    LastDigit(a, b, e, f);
    var x, y := Spell2(a, b), Spell2(e, f);
    LastDigit(x, c, y, g);
    var u, v := x * 0x100 + c, y * 0x100 + g;
    LastDigit(u, d, v, h);
    assert Spell4(a, b, c, d) == u * 0x100 + d && Spell4(e, f, g, h) == v * 0x100 + h;
  }

  lemma DivTwice(x: int)
    ensures x / 0x1_0000 == x / 0x100 / 0x100
    ensures x / 0x100_0000 == x / 0x100 / 0x100 / 0x100
  {
    var a := x / 0x100;
    var b := a / 0x100;
    var c := b / 0x100;
    assert x == a * 0x100 + x % 0x100 && a == b * 0x100 + a % 0x100 && b == c * 0x100 + b % 0x100;
  }

  /** Two bytes spell a number up to 16 bits. */
  lemma TwoBytes(x: int)
    ensures Spell2(ToByte(x / 0x100), ToByte(x)) == x % 0x1_0000
  {
    var a := x / 0x100;
    assert x == a / 0x100 * 0x1_0000 + (a % 0x100 * 0x100 + x % 0x100);
  }

  /** Four bytes spell a number up to 32 bits. */
  lemma FourBytes(x: int)
    ensures Spell4(ToByte(x / 0x100_0000), ToByte(x / 0x1_0000), ToByte(x / 0x100), ToByte(x)) == x % 0x1_0000_0000
  {
    DivTwice(x);
    var a := x / 0x100;
    var b := a / 0x100;
    var c := b / 0x100;
    assert x == c / 0x100 * 0x1_0000_0000
             + (c % 0x100 * 0x100_0000 + b % 0x100 * 0x1_0000 + a % 0x100 * 0x100 + x % 0x100);
  }
}
