/** The logic inside the shop's views: keyword splitting, the product search
    filter, category lookup, the product detail context with its sub-product
    selection, and the quantity rule of adding to the cart. Requests,
    rendering and redirects are not part of the model. */
module Views {
  import opened Wrappers
  import opened PySeq
  import opened PyStr
  import opened Orm
  import opened Models

  /** The ideographic (full-width) space, U+3000. */
  const FullWidthSpace: char := '　'

  /** The warning put into the context when the cart would exceed the stock. */
  const StockWarning: string := "在庫数以上をカートに入れようとしたので、カートに入れた数を在庫数に修正しました。"

  /** Turns full-width spaces into ASCII spaces and splits on the ASCII space. */
  function ConvertSpacesAndSplitKeywords(keywords: string): (r: seq<string>)
    ensures |r| >= 1
    ensures forall i :: 0 <= i < |r| ==> ' ' !in r[i] && FullWidthSpace !in r[i]
  {
    var replaced := ReplaceChar(keywords, FullWidthSpace, ' ');
    ReplaceCharCount(keywords, FullWidthSpace, ' ');
    SplitPiecesAvoid(replaced, ' ', FullWidthSpace);
    Split(replaced, ' ')
  }

  /** Joining the keywords with a space gives the input with its full-width
      spaces made ASCII, and splitting that again gives the keywords back. */
  lemma KeywordsRoundTrip(keywords: string)
    ensures Join(ConvertSpacesAndSplitKeywords(keywords), ' ') == ReplaceChar(keywords, FullWidthSpace, ' ')
    ensures Split(Join(ConvertSpacesAndSplitKeywords(keywords), ' '), ' ') == ConvertSpacesAndSplitKeywords(keywords)
  {
    JoinSplit(ReplaceChar(keywords, FullWidthSpace, ' '), ' ');
  }

  /** There is one keyword more than there are spaces of either width. */
  lemma KeywordsCount(keywords: string)
    ensures |ConvertSpacesAndSplitKeywords(keywords)| == CountChar(keywords, ' ') + CountChar(keywords, FullWidthSpace) + 1
  {
    ReplaceCharCount(keywords, FullWidthSpace, ' ');
    SplitCount(ReplaceChar(keywords, FullWidthSpace, ' '), ' ');
  }

  /** An empty search box gives the single empty keyword. */
  lemma KeywordsOfEmptyInput()
    ensures ConvertSpacesAndSplitKeywords("") == [""]
  {
  }

  /** A Django `Q` object built from name lookups. */
  datatype Query = NameContains(item: string) | And(left: Query, right: Query)

  /** Whether a product name satisfies the query. */
  predicate Eval(q: Query, name: string)
  {
    match q
    case NameContains(item) => Contains(name, item)
    case And(l, r) => Eval(l, name) && Eval(r, name)
  }

  /** The name holds every keyword. */
  predicate ContainsAllKeywords(name: string, keywordList: seq<string>)
  {
    forall k :: k in keywordList ==> Contains(name, k)
  }

  /** The `reduce(operator.and_, ...)` loop: conjoin the remaining keywords onto `acc`. */
  function AndAll(acc: Query, keywordList: seq<string>): Query
    decreases keywordList
  {
    if keywordList == [] then acc else AndAll(And(acc, NameContains(keywordList[0])), keywordList[1..])
  }

  lemma {:induction false} AndAllMeaning(acc: Query, keywordList: seq<string>)
    ensures forall name :: Eval(AndAll(acc, keywordList), name) <==> Eval(acc, name) && ContainsAllKeywords(name, keywordList)
    decreases keywordList
  {
    if keywordList != [] {
      var next := And(acc, NameContains(keywordList[0]));
      AndAllMeaning(next, keywordList[1..]);
      assert AndAll(acc, keywordList) == AndAll(next, keywordList[1..]);
      forall name: string
        ensures Eval(AndAll(acc, keywordList), name) <==> Eval(acc, name) && ContainsAllKeywords(name, keywordList)
      {
        assert Eval(next, name) <==> Eval(acc, name) && Contains(name, keywordList[0]);
        assert forall k :: k in keywordList <==> k == keywordList[0] || k in keywordList[1..];
        assert ContainsAllKeywords(name, keywordList) <==>
               Contains(name, keywordList[0]) && ContainsAllKeywords(name, keywordList[1..]);
      }
    }
  }

  /** The query `reduce(operator.and_, (Q(name__contains=item) for item in keyword_list))`;
      `reduce` raises TypeError on an empty list, modelled as None. */
  function KeywordQuery(keywordList: seq<string>): (r: Option<Query>)
    ensures r.None? <==> keywordList == []
    ensures r.Some? ==> forall name :: Eval(r.value, name) <==> ContainsAllKeywords(name, keywordList)
  {
    if keywordList == [] then None
    else
      AndAllMeaning(NameContains(keywordList[0]), keywordList[1..]);
      assert keywordList == [keywordList[0]] + keywordList[1..];
      Some(AndAll(NameContains(keywordList[0]), keywordList[1..]))
  }

  /** The filter of `search_products_with_keywords`: the query, and the
      category when one is given (a model instance is always truthy). */
  predicate ProductMatches(p: Product, q: Query, categoryObj: Option<Category>)
  {
    Eval(q, p.name) && (categoryObj.Some? ==> p.category == Some(categoryObj.value.id))
  }

  /** The products whose name contains every keyword and, when a category is
      given, that belong to it; None when the keyword list is empty. */
  function SearchProductsWithKeywords(products: seq<Product>, keywordList: seq<string>, categoryObj: Option<Category>): (r: Option<seq<Product>>)
    ensures r.None? <==> keywordList == []
    ensures r.Some? ==> forall p :: p in r.value <==>
      p in products && ContainsAllKeywords(p.name, keywordList) &&
      (categoryObj.Some? ==> p.category == Some(categoryObj.value.id))
    ensures r.Some? ==> IsSubsequence(r.value, products)
  {
    match KeywordQuery(keywordList)
    case None => None
    case Some(q) =>
      FilterIsSubsequence(products, (p: Product) => ProductMatches(p, q, categoryObj));
      Some(Filter(products, (p: Product) => ProductMatches(p, q, categoryObj)))
  }

  /** Searching with the keywords of any input never hits the empty `reduce`. */
  lemma SearchAfterSplitSucceeds(products: seq<Product>, keywords: string, categoryObj: Option<Category>)
    ensures SearchProductsWithKeywords(products, ConvertSpacesAndSplitKeywords(keywords), categoryObj).Some?
  {
  }

  /** An empty search without a category returns every product, in order. */
  lemma EmptySearchFindsEverything(products: seq<Product>)
    ensures SearchProductsWithKeywords(products, [""], None) == Some(products)
  {
    var q := KeywordQuery([""]).value;
    forall i | 0 <= i < |products|
      ensures ProductMatches(products[i], q, None)
    {
      EmptyContained(products[i].name);
    }
    FilterAll(products, (p: Product) => ProductMatches(p, q, None));
  }

  /** `int(category_id)` then `Category.objects.get(id=...)`: a value that does
      not parse gives None; a parsed id that matches no category, or more than
      one, raises. */
  function GetCategoryFromCategoryIdOrReturnNone(categoryId: string, categories: seq<Category>): (r: Result<Option<Category>, GetError>)
    ensures ParseInt(categoryId).None? ==> r == Success(None)
    ensures ParseInt(categoryId).Some? && r.Success? ==>
      r.value.Some? && r.value.value in categories && r.value.value.id == ParseInt(categoryId).value
    ensures r == Failure(DoesNotExist) <==>
      ParseInt(categoryId).Some? && forall c :: c in categories ==> c.id != ParseInt(categoryId).value
  {
    match ParseInt(categoryId)
    case None => Success(None)
    case Some(n) =>
      match Get(categories, (c: Category) => c.id == n)
      case Success(c) => Success(Some(c))
      case Failure(e) => Failure(e)
  }

  /** The search form's default category, "all", means no category. */
  lemma DefaultCategoryIsNone(categories: seq<Category>)
    ensures GetCategoryFromCategoryIdOrReturnNone("all", categories) == Success(None)
  {
    NonNumericIsNone("all", 0);
  }

  /** A sub-product's primary key. */
  function SubProductPk(s: SubProduct): int
  {
    s.id
  }

  /** Which sub-product the detail page shows: id 0 means the first one; an
      id that names none of them falls back to the first one. */
  function SelectSubProduct(subProducts: seq<SubProduct>, subProductId: int): (r: Option<SubProduct>)
    ensures r.None? <==> subProducts == []
    ensures r.Some? ==> r.value in subProducts
    ensures subProductId == 0 ==> r == First(subProducts, SubProductPk)
    ensures subProductId != 0 && (exists s :: s in subProducts && s.id == subProductId) ==> r.Some? && r.value.id == subProductId
    ensures (forall s :: s in subProducts ==> s.id != subProductId) ==> r == First(subProducts, SubProductPk)
  {
    if subProductId == 0 then First(subProducts, SubProductPk)
    else
      match First(Filter(subProducts, (s: SubProduct) => s.id == subProductId), SubProductPk)
      case Some(s) => Some(s)
      case None => First(subProducts, SubProductPk)
  }

  /** Sub-product ids are primary keys. */
  predicate UniqueIds(subProducts: seq<SubProduct>)
  {
    forall i, j :: 0 <= i < |subProducts| && 0 <= j < |subProducts| && subProducts[i].id == subProducts[j].id ==> i == j
  }

  /** With unique ids, an id that names a sub-product selects exactly it
      (id 0 can only name the one with the least key, which `first()` gives). */
  lemma SelectPresentSubProduct(subProducts: seq<SubProduct>, s: SubProduct)
    requires UniqueIds(subProducts)
    requires s in subProducts
    ensures SelectSubProduct(subProducts, s.id) == Some(s)
  {
    var r := SelectSubProduct(subProducts, s.id);
    var i :| 0 <= i < |subProducts| && subProducts[i] == r.value;
    var j :| 0 <= j < |subProducts| && subProducts[j] == s;
  }

  /** What the product detail page shows. */
  datatype DetailContext = DetailContext(product: Product, subProducts: seq<SubProduct>,
                                         subProductToShow: SubProduct, allocatableStocksSum: int)

  /** The product lookup raised, or the product has no sub-product (so the
      first one is None and asking it for its stock raises AttributeError). */
  datatype DetailError = ProductLookupFailed(error: GetError) | NoSubProduct

  /** `Product.objects.get(id=product_id)`. */
  function ProductById(products: seq<Product>, productId: int): (r: Result<Product, GetError>)
    ensures r.Success? ==> r.value in products && r.value.id == productId
    ensures r == Failure(DoesNotExist) <==> forall p :: p in products ==> p.id != productId
  {
    Get(products, (p: Product) => p.id == productId)
  }

  /** `get_product_detail_context`: the product, its sub-products, the one to
      show and that one's allocatable total. */
  function GetProductDetailContext(products: seq<Product>, subProducts: seq<SubProduct>, stocks: seq<Stock>,
                                   productId: int, subProductId: int): (r: Result<DetailContext, DetailError>)
    ensures r.Success? ==>
      && r.value.product in products && r.value.product.id == productId
      && (forall s :: s in r.value.subProducts <==> s in subProducts && s.parentProduct == productId)
      && r.value.subProductToShow in r.value.subProducts
      && SelectSubProduct(r.value.subProducts, subProductId) == Some(r.value.subProductToShow)
      && r.value.allocatableStocksSum == r.value.subProductToShow.GetAllocatableStockNum(stocks)
    ensures r.Failure? && r.error.ProductLookupFailed? <==> ProductById(products, productId).Failure?
    ensures r == Failure(NoSubProduct) <==>
      ProductById(products, productId).Success? && forall s :: s in subProducts ==> s.parentProduct != productId
  {
    match ProductById(products, productId)
    case Failure(e) => Failure(ProductLookupFailed(e))
    case Success(product) =>
      var mine := Filter(subProducts, (s: SubProduct) => s.parentProduct == product.id);
      match SelectSubProduct(mine, subProductId)
      case None => Failure(NoSubProduct)
      case Some(shown) => Success(DetailContext(product, mine, shown, shown.GetAllocatableStockNum(stocks)))
  }

  /** The quantity rule of `add_to_cart` on the line `get_or_create` returned
      (`created` is its flag): a new line takes the requested quantity; an
      existing line grows only while it stays within the sub-product's
      allocatable stock, and otherwise keeps its quantity and the warning is
      set. Returns the context's warning entry and its `added` entry. */
  method AddToCart(productCart: ProductCart, created: bool, quantityToAdd: int, stocks: seq<Stock>)
    returns (warning: Option<string>, added: ProductCart)
    modifies productCart`quantity
    ensures added == productCart
    ensures created ==> productCart.quantity == quantityToAdd && warning == None
    ensures !created && old(productCart.quantity) + quantityToAdd <= productCart.subProduct.GetAllocatableStockNum(stocks) ==>
      productCart.quantity == old(productCart.quantity) + quantityToAdd && warning == None
    ensures !created && old(productCart.quantity) + quantityToAdd > productCart.subProduct.GetAllocatableStockNum(stocks) ==>
      productCart.quantity == old(productCart.quantity) && warning == Some(StockWarning)
    ensures !created && old(productCart.quantity) <= productCart.subProduct.GetAllocatableStockNum(stocks) ==>
      productCart.quantity <= productCart.subProduct.GetAllocatableStockNum(stocks)
  {
    warning := None;
    if created {
      productCart.quantity := quantityToAdd;
    } else {
      if productCart.quantity + quantityToAdd <= productCart.subProduct.GetAllocatableStockNum(stocks) {
        productCart.quantity := productCart.quantity + quantityToAdd;
      } else {
        warning := Some(StockWarning);
      }
    }
    added := productCart;
  }
}
