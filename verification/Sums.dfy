/** The sum of a list of amounts. */
module Sums {

  function Sum(xs: seq<real>): real {
    if xs == [] then 0.0 else Sum(xs[..|xs| - 1]) + xs[|xs| - 1]
  }

  lemma {:induction false} SumCons(x: real, xs: seq<real>)
    ensures Sum([x] + xs) == x + Sum(xs)
  {
    if xs == [] {
      assert [x] + xs == [x] && [x][..0] == [];
    } else {
      var n := |xs| - 1;
      SumCons(x, xs[..n]);
      assert ([x] + xs)[..|xs|] == [x] + xs[..n];
    }
  }

  lemma SumLast(xs: seq<real>, init: seq<real>, x: real)
    requires xs == init + [x]
    ensures Sum(xs) == Sum(init) + x
  {
    assert xs[..|xs| - 1] == init;
  }
}
