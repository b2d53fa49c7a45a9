/** The `cart_sum` template filter: the total value of a cart's lines. */
module CartSumFilter {
  import opened Wrappers
  import opened PySeq
  import opened Models

  /** `[obj.get_sum() for obj in product_carts]`. */
  function LineSums(productCarts: seq<ProductCart>): (r: seq<int>)
    reads productCarts
    ensures |r| == |productCarts|
    ensures forall i :: 0 <= i < |productCarts| ==> r[i] == productCarts[i].GetSum()
  {
    if productCarts == [] then [] else [productCarts[0].GetSum()] + LineSums(productCarts[1..])
  }

  lemma {:induction false} LineSumsConcat(a: seq<ProductCart>, b: seq<ProductCart>)
    ensures LineSums(a + b) == LineSums(a) + LineSums(b)
  {
    if a == [] {
      assert a + b == b;
    } else {
      assert (a + b)[0] == a[0];
      assert (a + b)[1..] == a[1..] + b;
      LineSumsConcat(a[1..], b);
    }
  }

  /** The sum of the line values, folded with `reduce` and no initial value;
      an empty cart makes `reduce` raise TypeError, modelled as None. */
  function CartSum(productCarts: seq<ProductCart>): (r: Option<int>)
    reads productCarts
    ensures r.None? <==> productCarts == []
    ensures r.Some? ==> r.value == Total(LineSums(productCarts))
  {
    Reduce(LineSums(productCarts))
  }

  /** A one-line cart totals to that line's value. */
  lemma CartSumSingle(line: ProductCart)
    ensures CartSum([line]) == Some(line.GetSum())
  {
    assert Total(LineSums([line])) == line.GetSum() + Total([]);
  }

  /** Adding a line to a non-empty cart raises its total by the line's value. */
  lemma CartSumAppend(productCarts: seq<ProductCart>, line: ProductCart)
    requires productCarts != []
    ensures CartSum(productCarts + [line]) == Some(CartSum(productCarts).value + line.GetSum())
  {
    LineSumsConcat(productCarts, [line]);
    assert LineSums([line]) == [line.GetSum()];
    TotalAppend(LineSums(productCarts), line.GetSum());
  }

  /** With valid prices and non-negative quantities the total is non-negative. */
  lemma CartSumNonNegative(productCarts: seq<ProductCart>)
    requires productCarts != []
    requires forall l :: l in productCarts ==> l.subProduct.Valid() && l.quantity >= 0
    ensures CartSum(productCarts).value >= 0
  {
    var sums := LineSums(productCarts);
    forall i | 0 <= i < |sums|
      ensures sums[i] >= 0
    {
      assert productCarts[i] in productCarts;
    }
    TotalNonNegative(sums);
  }

  /** The total does not depend on the order of the lines. */
  lemma {:induction false} LineTotalPermutation(a: seq<ProductCart>, b: seq<ProductCart>)
    requires multiset(a) == multiset(b)
    ensures Total(LineSums(a)) == Total(LineSums(b))
    decreases |a|
  {
    if a == [] {
      assert |b| == |multiset(b)| == 0;
    } else {
      var x := a[0];
      assert x in multiset(b);
      var j :| 0 <= j < |b| && b[j] == x;
      var u, v := b[..j], b[j + 1..];
      assert b == u + [x] + v;
      assert a == [x] + a[1..];
      assert multiset(a) == multiset{x} + multiset(a[1..]);
      assert multiset(b) == multiset(u) + multiset{x} + multiset(v);
      assert multiset(a[1..]) == multiset(a) - multiset{x};
      assert multiset(u + v) == multiset(b) - multiset{x};
      LineTotalPermutation(a[1..], u + v);
      LineSumsConcat([x], a[1..]);
      LineSumsConcat(u + [x], v);
      LineSumsConcat(u, [x]);
      LineSumsConcat(u, v);
      TotalConcat(LineSums([x]), LineSums(a[1..]));
      TotalConcat(LineSums(u + [x]), LineSums(v));
      TotalConcat(LineSums(u), LineSums([x]));
      TotalConcat(LineSums(u), LineSums(v));
    }
  }

  lemma CartSumPermutation(a: seq<ProductCart>, b: seq<ProductCart>)
    requires multiset(a) == multiset(b)
    ensures CartSum(a) == CartSum(b)
  {
    LineTotalPermutation(a, b);
    assert a == [] <==> b == [] by {
      assert |a| == |multiset(a)| == |multiset(b)| == |b|;
    }
  }
}
