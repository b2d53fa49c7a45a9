/** The shop's records: zip codes, categories, products and their variants
    (sub-products), per-warehouse stock records and cart lines, with the
    computations the model classes define on them. A foreign key is held as
    the id of the row it refers to, except a cart line's `sub_product`, which
    holds the sub-product record itself; a reverse relation such as
    `stock_set` is the filter of a table (a sequence of rows) on that id. */
module Models {
  import opened Wrappers
  import opened PySeq
  import opened PyStr

  /** The `max_length` of `ZipCode.code`. */
  const ZipCodeMaxLength: nat := 7

  datatype ZipCode = ZipCode(prefecture: nat, code: string, zipAddress: string)
  {
    /** The first three characters of the code (fewer if the code is shorter). */
    function GetFirstPart(): (r: string)
      ensures |r| == if |code| < 3 then |code| else 3
      ensures IsPrefix(r, code)
    {
      Slice(code, 0, 3)
    }

    /** Everything after the first three characters. */
    function GetLastPart(): (r: string)
      ensures |r| == if |code| < 3 then 0 else |code| - 3
      ensures forall k :: 0 <= k < |r| ==> r[k] == code[3 + k]
    {
      SliceFrom(code, 3)
    }
  }

  /** The two parts of a zip code put back together give the code. */
  lemma ZipCodeRoundTrip(z: ZipCode)
    ensures z.GetFirstPart() + z.GetLastPart() == z.code
  {
    var first, last := z.GetFirstPart(), z.GetLastPart();
    assert first == z.code[..|first|];
    assert last == z.code[|first|..];
    assert z.code == z.code[..|first|] + z.code[|first|..];
  }

  /** A code within the field's maximum length has a last part of at most four characters. */
  lemma ZipCodeLastPartLength(z: ZipCode)
    requires |z.code| <= ZipCodeMaxLength
    ensures |z.GetLastPart()| <= 4
  {
  }

  datatype Category = Category(id: nat, name: string, parentCategory: Option<nat>, isShown: bool)

  datatype Product = Product(id: nat, name: string, isShown: bool, manufacturer: nat, category: Option<nat>)

  /** One per-warehouse stock record of a sub-product. */
  datatype Stock = Stock(id: nat, product: nat, allocatableNum: int, allocatedNum: int, isShown: bool, warehouse: nat)

  /** `[stock_obj.allocatable_num for stock_obj in stocks]`. */
  function AllocatableNums(stocks: seq<Stock>): (r: seq<int>)
    ensures |r| == |stocks|
    ensures forall i :: 0 <= i < |stocks| ==> r[i] == stocks[i].allocatableNum
  {
    if stocks == [] then [] else [stocks[0].allocatableNum] + AllocatableNums(stocks[1..])
  }

  lemma {:induction false} AllocatableNumsConcat(a: seq<Stock>, b: seq<Stock>)
    ensures AllocatableNums(a + b) == AllocatableNums(a) + AllocatableNums(b)
  {
    if a == [] {
      assert a + b == b;
    } else {
      assert (a + b)[0] == a[0];
      assert (a + b)[1..] == a[1..] + b;
      AllocatableNumsConcat(a[1..], b);
    }
  }


  /** A purchasable variant of a product. */
  datatype SubProduct = SubProduct(id: nat, parentProduct: nat, price: int, name: string, isShown: bool, description: string)
  {
    /** The price field's validator: at least 1. */
    predicate Valid()
    {
      price >= 1
    }

    /** The sub-product's `stock_set.all()`: the stock records that refer to this sub-product. */
    function StockSet(stocks: seq<Stock>): (r: seq<Stock>)
      ensures forall s :: s in r <==> s in stocks && s.product == id
    {
      var spId := id;
      Filter(stocks, (s: Stock) => s.product == spId)
    }

    /** The total allocatable quantity over this sub-product's stock records. */
    function GetAllocatableStockNum(stocks: seq<Stock>): (r: int)
      ensures (forall s :: s in stocks ==> s.product != id) ==> r == 0
      ensures (forall s :: s in stocks && s.product == id ==> s.allocatableNum >= 0) ==> r >= 0
    {
      var mine := StockSet(stocks);
      assert forall i :: 0 <= i < |mine| ==> mine[i] in mine;
      TotalNonNegativeIfRecordsAre(mine);
      Sum(AllocatableNums(mine))
    }
  }

  /** A total over records whose allocatable counts are non-negative is non-negative. */
  lemma TotalNonNegativeIfRecordsAre(stocks: seq<Stock>)
    ensures (forall i :: 0 <= i < |stocks| ==> stocks[i].allocatableNum >= 0) ==> Total(AllocatableNums(stocks)) >= 0
  {
    if forall i :: 0 <= i < |stocks| ==> stocks[i].allocatableNum >= 0 {
      TotalNonNegative(AllocatableNums(stocks));
    }
  }

  /** The allocatable total is the sum over the sub-product's own records. */
  lemma AllocatableStockNumIsSum(sp: SubProduct, stocks: seq<Stock>)
    ensures sp.GetAllocatableStockNum(stocks) == Total(AllocatableNums(sp.StockSet(stocks)))
  {
  }

  /** The allocatable total over two tables is the sum of their totals. */
  lemma AllocatableStockNumConcat(sp: SubProduct, a: seq<Stock>, b: seq<Stock>)
    ensures sp.GetAllocatableStockNum(a + b) == sp.GetAllocatableStockNum(a) + sp.GetAllocatableStockNum(b)
  {
    var spId := sp.id;
    var p := (s: Stock) => s.product == spId;
    FilterConcat(a, b, p);
    AllocatableNumsConcat(Filter(a, p), Filter(b, p));
    TotalConcat(AllocatableNums(Filter(a, p)), AllocatableNums(Filter(b, p)));
  }

  /** Adding a stock record raises the sub-product's allocatable total by that
      record's allocatable count when it belongs to the sub-product, and leaves
      it unchanged otherwise. */
  lemma AllocatableStockNumAppend(sp: SubProduct, stocks: seq<Stock>, x: Stock)
    ensures sp.GetAllocatableStockNum(stocks + [x]) ==
            sp.GetAllocatableStockNum(stocks) + (if x.product == sp.id then x.allocatableNum else 0)
  {
    AllocatableStockNumConcat(sp, stocks, [x]);
    var spId := sp.id;
    assert Filter([x], (s: Stock) => s.product == spId) == if x.product == spId then [x] else [];
  }

  /** The allocatable total does not depend on the order of the stock table. */
  lemma {:induction false} AllocatableStockNumPermutation(sp: SubProduct, a: seq<Stock>, b: seq<Stock>)
    requires multiset(a) == multiset(b)
    ensures sp.GetAllocatableStockNum(a) == sp.GetAllocatableStockNum(b)
    decreases |a|
  {
    if a == [] {
      assert |b| == |multiset(b)| == 0;
    } else {
      var x := a[0];
      assert x in multiset(b);
      var j :| 0 <= j < |b| && b[j] == x;
      var u, v := b[..j], b[j + 1..];
      assert b == u + [x] + v;
      assert a == [x] + a[1..];
      assert multiset(a) == multiset{x} + multiset(a[1..]);
      assert multiset(b) == multiset(u) + multiset{x} + multiset(v);
      assert multiset(a[1..]) == multiset(a) - multiset{x};
      assert multiset(u + v) == multiset(b) - multiset{x};
      AllocatableStockNumPermutation(sp, a[1..], u + v);
      AllocatableStockNumConcat(sp, [x], a[1..]);
      AllocatableStockNumConcat(sp, u + [x], v);
      AllocatableStockNumConcat(sp, u, [x]);
      AllocatableStockNumConcat(sp, u, v);
    }
  }

  /** A line of a user's cart: one sub-product and how many of it. Its
      quantity is the one field the views change in place. */
  class ProductCart {
    var parentCart: nat
    var subProduct: SubProduct
    var quantity: int
    var isShown: bool

    /** A new line, with the field defaults (quantity 0, shown). */
    constructor (parentCart: nat, subProduct: SubProduct)
      ensures this.parentCart == parentCart && this.subProduct == subProduct
      ensures quantity == 0 && isShown
    {
      this.parentCart := parentCart;
      this.subProduct := subProduct;
      quantity := 0;
      isShown := true;
    }

    /** The value of the line: unit price times quantity. */
    function GetSum(): (r: int)
      reads this
      ensures subProduct.Valid() && quantity >= 0 ==> r >= quantity
      ensures quantity == 0 ==> r == 0
    {
      subProduct.price * quantity
    }

    /** The stock records of this line's sub-product that can still be allocated. */
    function GetAvailableStocks(stocks: seq<Stock>): (r: seq<Stock>)
      reads this
      ensures forall s :: s in r <==> s in stocks && s.product == subProduct.id && s.allocatableNum > 0
    {
      var spId := subProduct.id;
      Filter(stocks, (s: Stock) => s.product == spId && s.allocatableNum > 0)
    }
  }

  /** With a valid price, a larger quantity gives a strictly larger line value. */
  lemma GetSumStrictlyMonotone(a: ProductCart, b: ProductCart)
    requires a.subProduct == b.subProduct && a.subProduct.Valid()
    requires a.quantity < b.quantity
    ensures a.GetSum() < b.GetSum()
  {
    var price, d := a.subProduct.price, b.quantity - a.quantity;
    assert b.GetSum() - a.GetSum() == price * d;
    ProductAtLeast(price, d);
  }

  /** A factor of at least 1 does not shrink a positive number. */
  lemma {:induction false} ProductAtLeast(x: int, y: int)
    requires x >= 1 && y >= 1
    ensures x * y >= y
    decreases x
  {
    if x > 1 {
      ProductAtLeast(x - 1, y);
      assert x * y == (x - 1) * y + y;
    }
  }

  /** The available stocks are the records of the sub-product's stock set,
      in the same order, whose allocatable count is positive. */
  lemma AvailableStocksOfStockSet(line: ProductCart, stocks: seq<Stock>)
    ensures line.GetAvailableStocks(stocks) == Filter(line.subProduct.StockSet(stocks), (s: Stock) => s.allocatableNum > 0)
    ensures IsSubsequence(line.GetAvailableStocks(stocks), line.subProduct.StockSet(stocks))
  {
    var spId := line.subProduct.id;
    var positive := (s: Stock) => s.allocatableNum > 0;
    FilterFilter(stocks, (s: Stock) => s.product == spId, positive, (s: Stock) => s.product == spId && s.allocatableNum > 0);
    FilterIsSubsequence(line.subProduct.StockSet(stocks), positive);
  }

  /** Dropping records with nothing allocatable does not change the total
      when no record is negative. */
  lemma {:induction false} DropEmptyKeepsTotal(stocks: seq<Stock>)
    requires forall i :: 0 <= i < |stocks| ==> stocks[i].allocatableNum >= 0
    ensures Total(AllocatableNums(Filter(stocks, (s: Stock) => s.allocatableNum > 0))) == Total(AllocatableNums(stocks))
  {
    if stocks != [] {
      DropEmptyKeepsTotal(stocks[1..]);
      var positive := (s: Stock) => s.allocatableNum > 0;
      if positive(stocks[0]) {
        assert Filter(stocks, positive) == [stocks[0]] + Filter(stocks[1..], positive);
        assert AllocatableNums([stocks[0]] + Filter(stocks[1..], positive))[1..] == AllocatableNums(Filter(stocks[1..], positive));
      }
    }
  }

  /** When no stock record is negative, the available stocks hold the whole
      allocatable total of the sub-product. */
  lemma AvailableStocksKeepTotal(line: ProductCart, stocks: seq<Stock>)
    requires forall s :: s in stocks ==> s.allocatableNum >= 0
    ensures Total(AllocatableNums(line.GetAvailableStocks(stocks))) == line.subProduct.GetAllocatableStockNum(stocks)
  {
    AvailableStocksOfStockSet(line, stocks);
    var mine := line.subProduct.StockSet(stocks);
    assert forall i :: 0 <= i < |mine| ==> mine[i] in mine;
    DropEmptyKeepsTotal(mine);
  }
}
