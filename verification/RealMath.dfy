/** Products and quotients of reals by name, so that the verifier sees equal factors give
    equal products, and the few algebraic facts the models need. */
module RealMath {
  function Times(x: real, y: real): real {
    x * y
  }

  function Over(x: real, y: real): real
    requires y != 0.0
  {
    x / y
  }

  lemma DivideIsTimesReciprocal(x: real, r: real)
    requires r > 0.0
    ensures Over(x, r) == Times(x, Over(1.0, r))
  {
  }

  lemma Swap(x: real, y: real, z: real)
    ensures Times(Times(x, y), z) == Times(Times(x, z), y)
  {
  }

  lemma Interchange(x: real, y: real, f: real, g: real)
    ensures Times(Times(x, f), Times(y, g)) == Times(Times(x, y), Times(f, g))
  {
  }

  lemma Associate(x: real, y: real, z: real)
    ensures Times(Times(x, y), z) == Times(x, Times(y, z))
  {
  }

  lemma TimesKeepsSign(x: real, y: real)
    ensures x > 0.0 && y > 0.0 ==> Times(x, y) > 0.0
    ensures x >= 0.0 && y >= 0.0 ==> Times(x, y) >= 0.0
  {
  }

  lemma TimesMonotone(x: real, y: real, z: real)
    requires x <= y && z >= 0.0
    ensures Times(x, z) <= Times(y, z)
    ensures Times(z, x) <= Times(z, y)
  {
  }

  lemma TimesStrictlyMonotone(x: real, y: real, z: real)
    requires x < y && z > 0.0
    ensures Times(x, z) < Times(y, z)
  {
  }

  lemma Distribute(x: real, y: real, z: real)
    ensures Times(x, y + z) == Times(x, y) + Times(x, z)
    ensures Times(x, y - z) == Times(x, y) - Times(x, z)
  {
  }

  lemma OverKeepsSign(x: real, y: real)
    requires y > 0.0
    ensures x > 0.0 ==> Over(x, y) > 0.0
    ensures x >= 0.0 ==> Over(x, y) >= 0.0
    ensures Times(Over(x, y), y) == x
  {
  }

  lemma OneMinus(x: real, y: real)
    requires y > 0.0
    ensures Over(y - x, y) == 1.0 - Over(x, y)
  {
    assert (y - x) / y == y / y - x / y;
  }
}
