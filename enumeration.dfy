/** The order in which the download loops of `main` visit their tasks: Python's
    `range(lo, hi + 1)` and the nesting of one `for` loop inside another. */
module Enumeration {

  /** `range(lo, hi + 1)`: the integers from lo to hi, empty when lo > hi. */
  function Span(lo: int, hi: int): (s: seq<int>)
    ensures |s| == if lo <= hi then hi - lo + 1 else 0
    ensures forall i :: 0 <= i < |s| ==> s[i] == lo + i
  {
    seq(if lo <= hi then hi - lo + 1 else 0, i => lo + i)
  }

  /** The iterations of an inner loop over `ys` for one value `x` of the outer loop. */
  function Row<X, Y>(x: X, ys: seq<Y>): (r: seq<(X, Y)>)
    ensures |r| == |ys|
    ensures forall j :: 0 <= j < |ys| ==> r[j] == (x, ys[j])
  {
    seq(|ys|, j requires 0 <= j < |ys| => (x, ys[j]))
  }

  /** The iterations of `for x in xs: for y in ys:` in the order they run. */
  function Pairs<X, Y>(xs: seq<X>, ys: seq<Y>): seq<(X, Y)>
  {
    if xs == [] then [] else Pairs(xs[..|xs| - 1], ys) + Row(xs[|xs| - 1], ys)
  }

  lemma RowAppend<X, Y>(x: X, ys: seq<Y>, zs: seq<Y>)
    ensures Row(x, ys + zs) == Row(x, ys) + Row(x, zs)
  {
  }

  /** Finishing the inner loop for x extends the finished part by the row of x. */
  lemma PairsSnoc<X, Y>(xs: seq<X>, ys: seq<Y>, k: nat)
    requires k < |xs|
    ensures Pairs(xs[..k + 1], ys) == Pairs(xs[..k], ys) + Row(xs[k], ys)
  {
    assert xs[..k + 1][..k] == xs[..k];
  }

  /** A loop over a single outer value is the inner loop. */
  lemma PairsSingle<X, Y>(x: X, ys: seq<Y>)
    ensures Pairs([x], ys) == Row(x, ys)
  {
    assert [x][..0] == [];
  }

  /** One more inner iteration under outer value x. */
  lemma RowStep<X, Y>(x: X, ys: seq<Y>, j: nat)
    requires j < |ys|
    ensures Row(x, ys[..j + 1]) == Row(x, ys[..j]) + [(x, ys[j])]
  {
  }

  /** Finishing the inner loop for the k-th middle value y, under outer value x. */
  lemma NestedSnoc<X, Y, Z>(x: X, ys: seq<Y>, zs: seq<Z>, k: nat)
    requires k < |ys|
    ensures Row(x, Pairs(ys[..k], zs)) + Row(x, Row(ys[k], zs)) == Row(x, Pairs(ys[..k + 1], zs))
  {
    PairsSnoc(ys, zs, k);
    RowAppend(x, Pairs(ys[..k], zs), Row(ys[k], zs));
  }

  /** One more innermost iteration, after the iterations `pre` already done. */
  lemma ExtendRow<X, Y, Z>(pre: seq<(X, (Y, Z))>, x: X, y: Y, zs: seq<Z>, i: nat)
    requires i < |zs|
    ensures pre + Row(x, Row(y, zs[..i])) + [(x, (y, zs[i]))] == pre + Row(x, Row(y, zs[..i + 1]))
  {
    RowStep(y, zs, i);
    RowAppend(x, Row(y, zs[..i]), [(y, zs[i])]);
  }

  /** The innermost loop over all of zs has finished for the k-th middle value. */
  lemma FinishRow<X, Y, Z>(pre: seq<(X, (Y, Z))>, x: X, ys: seq<Y>, zs: seq<Z>, k: nat)
    requires k < |ys|
    ensures pre + Row(x, Pairs(ys[..k], zs)) + Row(x, Row(ys[k], zs))
         == pre + Row(x, Pairs(ys[..k + 1], zs))
  {
    NestedSnoc(x, ys, zs, k);
  }

  /** One more iteration of a fourth loop, under the values x, y and z of the outer three. */
  lemma ExtendRow3<X, Y, Z, W>(pre: seq<(X, (Y, (Z, W)))>, x: X, y: Y, z: Z, ws: seq<W>, i: nat)
    requires i < |ws|
    ensures pre + Row(x, Row(y, Row(z, ws[..i]))) + [(x, (y, (z, ws[i])))]
         == pre + Row(x, Row(y, Row(z, ws[..i + 1])))
  {
    RowStep(z, ws, i);
    RowAppend(y, Row(z, ws[..i]), [(z, ws[i])]);
    RowAppend(x, Row(y, Row(z, ws[..i])), [(y, (z, ws[i]))]);
  }

  /** The loop over ws has finished for the k-th value of zs, under outer values x and y. */
  lemma FinishRow3<X, Y, Z, W>(pre: seq<(X, (Y, (Z, W)))>, x: X, y: Y, zs: seq<Z>, ws: seq<W>, k: nat)
    requires k < |zs|
    ensures pre + Row(x, Row(y, Pairs(zs[..k], ws))) + Row(x, Row(y, Row(zs[k], ws)))
         == pre + Row(x, Row(y, Pairs(zs[..k + 1], ws)))
  {
    NestedSnoc(y, zs, ws, k);
    RowAppend(x, Row(y, Pairs(zs[..k], ws)), Row(y, Row(zs[k], ws)));
  }

  /** The middle loop over all of ys has finished for the k-th outer value. */
  lemma FinishPairs<X, Y>(xs: seq<X>, ys: seq<Y>, k: nat)
    requires k < |xs|
    ensures Pairs(xs[..k], ys) + Row(xs[k], ys) == Pairs(xs[..k + 1], ys)
  {
    PairsSnoc(xs, ys, k);
  }

  /** The number of iterations that run before the i-th outer value, when the inner
      loop makes m of them each time. */
  function Offset(i: nat, m: nat): nat {
    if i == 0 then 0 else Offset(i - 1, m) + m
  }

  lemma {:induction false} OffsetMonotone(i: nat, i': nat, m: nat)
    requires i <= i'
    ensures Offset(i, m) <= Offset(i', m)
    decreases i'
  {
    if i < i' {
      OffsetMonotone(i, i' - 1, m);
    }
  }

  /** An offset is a product. */
  lemma {:induction false} OffsetIsProduct(i: nat, m: nat)
    ensures Offset(i, m) == i * m
  {
    if i > 0 {
      OffsetIsProduct(i - 1, m);
      assert i * m == (i - 1) * m + m;
    }
  }

  /** The nested loops run |xs| times |ys| iterations. */
  lemma {:induction false} PairsLength<X, Y>(xs: seq<X>, ys: seq<Y>)
    ensures |Pairs(xs, ys)| == Offset(|xs|, |ys|)
  {
    if xs != [] {
      PairsLength(xs[..|xs| - 1], ys);
    }
  }

  /** The j-th iteration of the inner loop under the i-th outer value comes after all the
      iterations of the earlier outer values. */
  lemma {:induction false} PairsAt<X, Y>(xs: seq<X>, ys: seq<Y>, i: nat, j: nat)
    requires i < |xs| && j < |ys|
    ensures Offset(i, |ys|) + j < |Pairs(xs, ys)|
    ensures Pairs(xs, ys)[Offset(i, |ys|) + j] == (xs[i], ys[j])
  {
    var init := xs[..|xs| - 1];
    PairsLength(xs, ys);
    PairsLength(init, ys);
    OffsetMonotone(i + 1, |xs|, |ys|);
    if i < |xs| - 1 {
      OffsetMonotone(i + 1, |xs| - 1, |ys|);
      PairsAt(init, ys, i, j);
      assert init[i] == xs[i];
    }
  }

  /** Every iteration of the nested loops pairs a value of xs with a value of ys. */
  lemma {:induction false} PairsMembers<X, Y>(xs: seq<X>, ys: seq<Y>, k: nat)
    requires k < |Pairs(xs, ys)|
    ensures Pairs(xs, ys)[k].0 in xs && Pairs(xs, ys)[k].1 in ys
  {
    var init := xs[..|xs| - 1];
    var p := Pairs(init, ys);
    if k < |p| {
      PairsMembers(init, ys, k);
      assert p[k] == Pairs(xs, ys)[k];
    } else {
      assert Pairs(xs, ys)[k] == Row(xs[|xs| - 1], ys)[k - |p|];
    }
  }

  /** Iteration Offset(a, |ys| |zs|) + Offset(b, |zs|) + c of three nested loops is the
      a-th outer, b-th middle and c-th inner value. */
  lemma NestedAt<X, Y, Z>(xs: seq<X>, ys: seq<Y>, zs: seq<Z>, a: nat, b: nat, c: nat)
    requires a < |xs| && b < |ys| && c < |zs|
    ensures var k := Offset(a, Offset(|ys|, |zs|)) + (Offset(b, |zs|) + c);
            (k < |Pairs(xs, Pairs(ys, zs))| && Pairs(xs, Pairs(ys, zs))[k] == (xs[a], (ys[b], zs[c])))
  {
    PairsAt(ys, zs, b, c);
    PairsLength(ys, zs);
    PairsAt(xs, Pairs(ys, zs), a, Offset(b, |zs|) + c);
  }

  /** The same for four nested loops. */
  lemma Nested4At<W, X, Y, Z>(ws: seq<W>, xs: seq<X>, ys: seq<Y>, zs: seq<Z>, a: nat, b: nat, c: nat, d: nat)
    requires a < |ws| && b < |xs| && c < |ys| && d < |zs|
    ensures var k := Offset(a, Offset(|xs|, Offset(|ys|, |zs|)))
                     + (Offset(b, Offset(|ys|, |zs|)) + (Offset(c, |zs|) + d));
            var all := Pairs(ws, Pairs(xs, Pairs(ys, zs)));
            (k < |all| && all[k] == (ws[a], (xs[b], (ys[c], zs[d]))))
  {
    var inner := Pairs(xs, Pairs(ys, zs));
    var j := Offset(b, Offset(|ys|, |zs|)) + (Offset(c, |zs|) + d);
    NestedAt(xs, ys, zs, b, c, d);
    assert j < |inner| && inner[j] == (xs[b], (ys[c], zs[d]));
    PairsLength(ys, zs);
    PairsLength(xs, Pairs(ys, zs));
    assert |inner| == Offset(|xs|, Offset(|ys|, |zs|));
    PairsAt(ws, inner, a, j);
  }
}
