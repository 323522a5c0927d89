/** The goal-torque word `write_torque` sends: a normalised torque in
    [-1, 1], converted to units of 6.5 mA of a 3 A maximum, with the
    direction in bit 15. Real arithmetic stands for Python's floats. */
module Torque {

  function Abs(x: real): real {
    if x < 0.0 then -x else x
  }

  /** Out-of-range requests are clamped to [-1, 1]; in-range ones are kept. */
  function Clamp(t: real): (c: real)
    ensures -1.0 <= c <= 1.0
    ensures -1.0 <= t <= 1.0 ==> c == t
    ensures t > 1.0 ==> c == 1.0
    ensures t < -1.0 ==> c == -1.0
  {
    if -1.0 <= t <= 1.0 then t
    else
      var upper := if t < 1.0 then t else 1.0;
      if -1.0 < upper then upper else -1.0
  }

  /** Clamping never changes the direction of a request. */
  lemma ClampKeepsSign(t: real)
    ensures Clamp(t) < 0.0 <==> t < 0.0
    ensures Clamp(t) == 0.0 <==> t == 0.0
  {
  }

  /** Largest magnitude: floor(3000 / 6.5). */
  const MAX_MAGNITUDE := 461

  /** `int(abs(t) * (3000/6.5))` for a clamped t: the magnitude in 6.5 mA
      units, rounded toward zero. */
  function Magnitude(c: real): (m: int)
    requires -1.0 <= c <= 1.0
    ensures 0 <= m <= MAX_MAGNITUDE
    ensures m as real <= Abs(c) * (3000.0 / 6.5) < m as real + 1.0
  {
    var x := Abs(c) * (3000.0 / 6.5);
    assert x <= 3000.0 / 6.5 < 462.0;
    x.Floor
  }

  const DIRECTION_BIT: bv16 := 0x8000

  /** A word below 2^9 has bit 15 clear, and or-ing in bit 15 keeps the
      low bits. */
  lemma DirectionBitSeparate(m: bv16)
    requires m < 512
    ensures m & DIRECTION_BIT == 0 && m & 0x7FFF == m
    ensures (m | DIRECTION_BIT) & DIRECTION_BIT != 0 && (m | DIRECTION_BIT) & 0x7FFF == m
  {
  }

  lemma WordOf(n: int)
    requires 0 <= n < 512
    ensures (n as bv16) as int == n && n as bv16 < 512
  {
  }

  /** The word for a magnitude `m` below 2^9, with bit 15 set when
      `negative`. */
  lemma WordBits(m: bv16, negative: bool)
    requires m < 512
    ensures var v := if negative then m | DIRECTION_BIT else m;
            (v & DIRECTION_BIT != 0 <==> negative) && v & 0x7FFF == m
  {
    DirectionBitSeparate(m);
  }

  /** The 16-bit goal-torque word for a requested torque `t`. */
  function Encode(t: real): (v: bv16)
    ensures (v & DIRECTION_BIT != 0) <==> t < 0.0
    ensures (v & 0x7FFF) as int == Magnitude(Clamp(t))
    ensures v & 0x7FFF == Magnitude(Clamp(t)) as bv16
  {
    var c := Clamp(t);
    ClampKeepsSign(t);
    var n := Magnitude(c);
    WordOf(n);
    var m := n as bv16;
    WordBits(m, c < 0.0);
    if c < 0.0 then m | DIRECTION_BIT else m
  }

  /** The word leaves bits 9 to 14 clear: the magnitude fits in bits 0-8. */
  lemma EncodeFitsNineBits(t: real)
    ensures Encode(t) & 0x7E00 == 0
  {
    var v := Encode(t);
    var m := (v & 0x7FFF);
    assert m as int <= MAX_MAGNITUDE;
    assert v & 0x7E00 == m & 0x7E00;
  }

  /** The requested direction and the rounded magnitude can be read back
      from the word: a request and its negation differ in bit 15 only. */
  lemma EncodeNegation(t: real)
    requires 0.0 < t
    ensures Encode(-t) == Encode(t) | DIRECTION_BIT
  {
    NegationLowBits(t);
    JoinDirection(Encode(t), Encode(-t));
  }

  /** A request and its negation agree in bits 0-14. */
  lemma NegationLowBits(t: real)
    ensures Encode(-t) & 0x7FFF == Encode(t) & 0x7FFF
  {
    ClampNegation(t);
    SameMagnitude(Clamp(-t), Clamp(t));
  }

  /** A request and its negation clamp to values of equal size. */
  lemma ClampNegation(t: real)
    ensures Abs(Clamp(-t)) == Abs(Clamp(t))
  {
  }

  /** Requests of equal size have equal magnitudes. */
  lemma SameMagnitude(c: real, d: real)
    requires -1.0 <= c <= 1.0 && -1.0 <= d <= 1.0 && Abs(c) == Abs(d)
    ensures Magnitude(c) == Magnitude(d)
  {
  }

  /** A word with bit 15 set is the word with it clear, or-ed with bit 15. */
  lemma JoinDirection(m: bv16, w: bv16)
    requires m & DIRECTION_BIT == 0 && w & DIRECTION_BIT != 0 && w & 0x7FFF == m & 0x7FFF
    ensures w == m | DIRECTION_BIT
  {
  }
}
