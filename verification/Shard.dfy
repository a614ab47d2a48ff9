/** Which shard owns a role. */
module Shard {

  /** Go's remainder truncates toward zero: it has the sign of the dividend. */
  function Rem(a: int, n: int): int
    requires n > 0
  {
    if a >= 0 then a % n else -((-a) % n)
  }

  /** The remainder is what is left after taking out a multiple: smaller than the divisor, with the sign of
      the dividend. */
  lemma RemIsWhatIsLeft(a: int, n: int)
    requires n > 0
    ensures -n < Rem(a, n) < n && (a >= 0 ==> Rem(a, n) >= 0) && (a <= 0 ==> Rem(a, n) <= 0)
    ensures exists q :: a == q * n + Rem(a, n)
  {
    if a >= 0 {
      assert a == (a / n) * n + Rem(a, n);
    } else {
      assert -a == ((-a) / n) * n + (-a) % n;
      assert a == (-((-a) / n)) * n + Rem(a, n);
    }
  }

  function ForRole(role: int, count: int): (shard: int)
    ensures 0 <= shard < if count <= 0 then 1 else count
  {
    var n := if count <= 0 then 1 else count;
    var mod := Rem(role, n);
    if mod < 0 then mod + n else mod
  }

  /** The shard number is the residue of the role id: shard and role differ by a multiple of the count. */
  lemma ForRoleIsResidue(role: int, count: int)
    requires count > 0
    ensures exists q :: role == q * count + ForRole(role, count)
  {
    if role >= 0 {
      assert role == (role / count) * count + ForRole(role, count);
    } else {
      var k, m := (-role) / count, (-role) % count;
      assert -role == k * count + m;
      if m == 0 {
        assert role == (-k) * count + ForRole(role, count);
      } else {
        assert role == (-k - 1) * count + ForRole(role, count);
      }
    }
  }
}
