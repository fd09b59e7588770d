/** The random numbers of user/ulib.c: the multiplicative generator of Park and
    Miller, computed by Schrage's method. */
module Random {

  const M := 0x7fff_ffff
  const A := 16807
  /** 16807 * 1407677000 is 1 modulo 2^31 - 1. */
  const A_INVERSE := 1407677000

  predicate IsState(x: int) {
    1 <= x < M
  }

  predicate Fits32(x: int) {
    -0x8000_0000 <= x < 0x8000_0000
  }

  /** The generator, by its definition. */
  function ParkMiller(x: int): int {
    A * x % M
  }

  /** A number in 0..m that differs from x by a multiple of m is x mod m. */
  lemma ModIs(x: int, q: int, r: int)
    requires x == M * q + r && 0 <= r < M
    ensures x % M == r
  {
  }

  lemma Schrage(x: int)
    requires IsState(x)
    ensures var hi, lo := x / 127773, x % 127773; var y := A * lo - 2836 * hi;
      && Fits32(A * lo) && Fits32(2836 * hi) && -M < y < M && A * x == M * hi + y
  {
  }

  /** Multiplying by the inverse leads back. */
  lemma Inverse(x: int)
    requires IsState(x)
    ensures ParkMiller(x) * A_INVERSE % M == x
  {
    var q, r := A * x / M, ParkMiller(x);
    assert A * x == M * q + r;
    assert A * A_INVERSE == M * 11017 + 1 by {
      assert 16807 * 1407677000 == 0x7fff_ffff * 11017 + 1;
    }
    assert r * A_INVERSE == M * (11017 * x - q * A_INVERSE) + x by {
      assert r * A_INVERSE == (A * x - M * q) * A_INVERSE;
    }
    ModIs(r * A_INVERSE, 11017 * x - q * A_INVERSE, x);
  }

  /** The generator never reaches 0. */
  lemma NeverZero(x: int)
    requires IsState(x)
    ensures IsState(ParkMiller(x))
  {
    Inverse(x);
  }

  lemma OneToOne(x: int, y: int)
    requires IsState(x) && IsState(y) && ParkMiller(x) == ParkMiller(y)
    ensures x == y
  {
    Inverse(x);
    Inverse(y);
  }

  /** And it reaches every state: it permutes 1..2^31 - 2. */
  lemma Onto(y: int) returns (x: int)
    requires IsState(y)
    ensures IsState(x) && ParkMiller(x) == y
  {
    x := y * A_INVERSE % M;
    var q := y * A_INVERSE / M;
    assert y * A_INVERSE == M * q + x;
    assert 16807 * 1407677000 == 0x7fff_ffff * 11017 + 1;
    assert A * x == M * (11017 * y - A * q) + y by {
      assert A * x == A * (y * A_INVERSE) - A * (M * q);
      assert A * (y * A_INVERSE) == (A * A_INVERSE) * y;
    }
    ModIs(A * x, 11017 * y - A * q, y);
  }

  /** do_rand(): ctx is the new state. */
  method DoRand(ctx0: int) returns (r: int, ctx: int)
    requires IsState(ctx0)
    ensures IsState(ctx) && ctx == ParkMiller(ctx0) && r == ctx - 1 && Fits32(r)
  {
    var hi, lo := ctx0 / 127773, ctx0 % 127773;
    var x := A * lo - 2836 * hi;
    Schrage(ctx0);
    if x < 0 {
      ModIs(A * ctx0, hi - 1, x + M);
      x := x + M;
    } else {
      ModIs(A * ctx0, hi, x);
    }
    NeverZero(ctx0);
    ctx := x;
    r := x - 1;
  }

  /** srand() and rand(). */
  class Rand {
    var next: int

    ghost predicate Valid()
      reads this
    {
      IsState(next)
    }

    constructor ()
      ensures Valid() && next == 2
    {
      next := 2;
    }

    method Srand(seed: nat)
      requires seed < 0x1_0000_0000
      modifies this
      ensures Valid() && next == seed % (M - 1) + 1
    {
      next := seed % 0x7ffffffe + 1;
    }

    method Next() returns (r: int)
      requires Valid()
      modifies this
      ensures Valid() && next == ParkMiller(old(next)) && r == next - 1 && 0 <= r <= 0x7ffffffd
    {
      r, next := DoRand(next);
    }
  }

  /** rand_r(), on any 32-bit state. */
  method RandR(state0: nat) returns (r: int, state: nat)
    requires state0 < 0x1_0000_0000
    ensures r == ParkMiller(state0 % (M - 1) + 1) - 1 && state == r && state < M - 1
  {
    var val := state0 % 0x7ffffffe + 1;
    r, val := DoRand(val);
    state := val - 1;
  }

  /** grind_do_rand(): the same numbers and the same next states as rand_r(). */
  method GrindDoRand(ctx0: nat) returns (r: int, ctx: nat)
    ensures r == ParkMiller(ctx0 % (M - 1) + 1) - 1 && ctx == r && ctx < M - 1
  {
    var x := ctx0 % 0x7ffffffe + 1;
    var hi, lo := x / 127773, x % 127773;
    Schrage(x);
    NeverZero(x);
    var y := A * lo - 2836 * hi;
    if y < 0 {
      ModIs(A * x, hi - 1, y + M);
      y := y + M;
    } else {
      ModIs(A * x, hi, y);
    }
    y := y - 1;
    ctx := y;
    r := y;
  }

  /** Started from one 32-bit state, the two produce one and the same sequence. */
  method SameSequence(state0: nat, n: nat) returns (a: seq<int>, b: seq<int>)
    requires state0 < 0x1_0000_0000
    ensures |a| == n && a == b
  {
    a, b := [], [];
    var s, t := state0, state0;
    while |a| < n
      invariant |a| <= n && a == b && s == t && s < 0x1_0000_0000
    {
      var x, y;
      x, s := RandR(s);
      y, t := GrindDoRand(t);
      a, b := a + [x], b + [y];
    }
  }
}
