/** C integer division, which truncates toward zero. */
module CInt {

  function Abs(x: int): (r: nat) {
    if x < 0 then -x else x
  }

  function Quot(a: int, b: int): (q: int)
    requires b != 0
  {
    if a >= 0 then a / b else -((-a) / b)
  }

  /** The remainder has the sign of the dividend. */
  function Rem(a: int, b: int): (r: int)
    requires b != 0
    ensures a == Quot(a, b) * b + r
  {
    a - Quot(a, b) * b
  }

  lemma {:induction false} DivRem(a: nat, b: int)
    requires b > 0
    ensures a / b >= 0 && 0 <= a - (a / b) * b < b
  {
  }

  lemma {:induction false} Negate(q: int, b: int)
    ensures (-q) * b == -(q * b)
  {
  }

  lemma {:induction false} Scale(a: int, b: int, n: int)
    requires a <= b && n >= 0
    ensures a * n <= b * n
  {
  }

  lemma {:induction false} AddScaled(a: int, b: int, n: int)
    ensures (a + b) * n == a * n + b * n
  {
  }

  lemma {:induction false} QuotRem(a: int, b: int)
    requires b > 0
    ensures Abs(a) == Abs(Quot(a, b)) * b + Abs(Rem(a, b)) && Abs(Rem(a, b)) < b
    ensures a >= 0 ==> Quot(a, b) >= 0 && Rem(a, b) >= 0
    ensures a <= 0 ==> Quot(a, b) <= 0 && Rem(a, b) <= 0
  {
    DivRem(Abs(a), b);
    var q := Abs(a) / b;
    if a < 0 {
      Negate(q, b);
      assert Quot(a, b) == -q && Rem(a, b) == -(Abs(a) - q * b);
    } else {
      assert Quot(a, b) == q && Rem(a, b) == a - q * b;
    }
    if a == 0 {
      assert 0 / b == 0;
    }
  }

  lemma {:induction false} NegativeDivisor(a: nat, b: int)
    requires b < 0
    ensures a / b == -(a / (-b))
  {
  }

  lemma {:induction false} RemBelow(a: int, b: int)
    requires b != 0
    ensures Abs(Rem(a, b)) < Abs(b)
  {
    if b > 0 {
      QuotRem(a, b);
    } else {
      NegativeDivisor(Abs(a), b);
      QuotRem(a, -b);
      Negate(Quot(a, -b), b);
      assert Quot(a, b) == -Quot(a, -b);
      assert Quot(a, -b) * -b == -(Quot(a, -b) * b);
    }
  }
}
