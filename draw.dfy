/** `Math.floor(Math.random() * n)`: how the client turns one uniform draw
    in [0, 1) into an index. */
module Draw {

  function Pick(r: real, n: nat): (k: nat)
    requires 0.0 <= r < 1.0 && n > 0
    ensures k < n
  {
    assert r * (n as real) < n as real by {
      assert (1.0 - r) * (n as real) > 0.0;
    }
    (r * (n as real)).Floor
  }

  /** Each index is picked exactly by the draws in an interval of width
      1/n: the pick is uniform. */
  lemma PickUniform(r: real, n: nat, k: nat)
    requires 0.0 <= r < 1.0 && n > 0
    ensures Pick(r, n) == k <==> (k as real) / (n as real) <= r < ((k + 1) as real) / (n as real)
  {
    var x := r * (n as real);
    var nr := n as real;
    assert r == x / nr;
    if Pick(r, n) == k {
      assert k as real <= x < (k + 1) as real;
      DivMonotone(k as real, x, nr);
      DivMonotoneStrict(x, (k + 1) as real, nr);
    } else if (k as real) / nr <= r < ((k + 1) as real) / nr {
      MulMonotone((k as real) / nr, r, nr);
      MulMonotoneStrict(r, ((k + 1) as real) / nr, nr);
      assert false;
    }
  }

  lemma DivMonotone(a: real, b: real, c: real)
    requires a <= b && c > 0.0
    ensures a / c <= b / c
  {
  }

  lemma DivMonotoneStrict(a: real, b: real, c: real)
    requires a < b && c > 0.0
    ensures a / c < b / c
  {
  }

  lemma MulMonotone(a: real, b: real, c: real)
    requires a <= b && c >= 0.0
    ensures a * c <= b * c
  {
  }

  lemma MulMonotoneStrict(a: real, b: real, c: real)
    requires a < b && c > 0.0
    ensures a * c < b * c
  {
  }
}
