# Storefront rules of the `shopping` application, modelled in Dafny

This project models the computational rules of a small Django storefront
(`shopping` application): how the allocatable stock of a product variant
(a *sub-product*) is totalled over its per-warehouse stock records, which
stock records count as available, the value of a cart line and of a whole
cart, the split of a zip code into its two parts, the splitting of a search
box into keywords, the product search filter built from those keywords, the
category lookup of the search form, the choice of sub-product on a product's
detail page, and the quantity rule applied when a sub-product is added to the
cart.

The database is abstracted away: each table is a sequence of rows (records
are datatypes; a foreign key is the id of the row it refers to, except a
cart line's `sub_product`, which holds the sub-product record itself), a reverse
relation such as `stock_set` is a filter of the table on that id, and the two
queryset lookups the views use (`objects.get` and `first()`) are functions
over those sequences. A cart line is a class, because adding to the cart
updates its `quantity` field in place. Python's exceptions that the code does
not catch (`reduce` of an empty list, a failed `objects.get`, `None` from
`first()`) are `None` / `Failure` results rather than preconditions.

Files and modules:

- `wrappers.dfy` (`Wrappers`): `Option` and `Result`.
- `pyseq.dfy` (`PySeq`): Python's `sum` and `functools.reduce` of `+`, both as
  the left fold they perform, against a reference sum `Total`; filtering of a
  sequence and the subsequence relation.
- `pystr.dfy` (`PyStr`): slicing, `str.replace`, `str.split`, `str.join`,
  substring containment and `int()`, with their round trips.
- `orm.dfy` (`Orm`): `objects.get` and `first()` (which, on a queryset with no
  ordering, orders by primary key).
- `models.dfy` (`Models`): the records of `shopping/models.py` and their methods.
- `views.dfy` (`Views`): the logic of `shopping/views.py`.
- `cart_sum.dfy` (`CartSumFilter`): the `cart_sum` template filter.

The docstring of `cart_sum` says it returns an empty string on any error,
but the code lets `reduce` raise on an empty cart; the model returns `None` there. The warning `add_to_cart` sets
says the cart quantity was corrected to the stock count, but the code leaves
the quantity unchanged; the model leaves it unchanged too.

## Model

| member | source | states |
|---|---|---|
| PySeq.Sum | shopping/models.py:164 | Python's `sum`, a left fold from 0, equals the reference total of the sequence, and is 0 on an empty one |
| PySeq.Reduce | shopping/templatetags/cart_sum.py:19 | `reduce` of `+` with no initial value fails exactly on an empty list and otherwise equals the reference total |
| PySeq.FoldAdd | shopping/templatetags/cart_sum.py:19 | folding from an accumulator adds the total of the remaining elements to it |
| PySeq.TotalPermutation | shopping/templatetags/cart_sum.py:19 | the total of a sequence of integers does not depend on their order |
| PyStr.ReplaceChar | shopping/views.py:37 | replacing one character keeps the length and changes exactly the positions holding that character |
| PyStr.ReplaceCharCount | shopping/views.py:37 | after the replacement the old character is gone and the new one occurs as often as both did before |
| PyStr.Split | shopping/views.py:38 | splitting on a separator gives at least one piece and no piece holds the separator |
| PyStr.JoinSplit | shopping/views.py:38 | joining the pieces of a split with the separator gives back the string |
| PyStr.SplitJoin | shopping/views.py:38 | splitting the join of separator-free pieces gives back the pieces |
| PyStr.SplitCount | shopping/views.py:38 | a split gives one piece more than there are separators |
| PyStr.ContainsAt | shopping/views.py:42 | the `contains` lookup holds exactly when the keyword occurs at some position of the name |
| PyStr.ParseDecimalString | shopping/views.py:28 | `int()` of the decimal rendering of a natural number gives that number |
| PyStr.ParseInt | shopping/views.py:28 | `int()` of an optional sign followed by ASCII digits; a successful parse starts with a digit or a sign |
| PyStr.NonNumericIsNone | shopping/views.py:27-30 | an ASCII letter anywhere in the string makes `int()` fail (ValueError, so None) |
| Orm.Get | shopping/views.py:32 | `objects.get` succeeds exactly when one row matches and returns a matching row; it raises DoesNotExist exactly when none does |
| Orm.First | shopping/views.py:72 | `first()` is None exactly on an empty queryset and otherwise a row with the least primary key |
| Models.ZipCode.GetFirstPart | shopping/models.py:104-105 | the first part is a prefix of the code of length min(3, length of the code) |
| Models.ZipCode.GetLastPart | shopping/models.py:107-108 | the last part is the code from the fourth character on |
| Models.ZipCodeRoundTrip | shopping/models.py:104-108 | first part followed by last part is the code |
| Models.ZipCodeLastPartLength | shopping/models.py:98 | a code within the 7-character field has a last part of at most 4 characters |
| Models.AllocatableNums | shopping/models.py:164 | the list comprehension has one entry per stock record: its allocatable count |
| Models.SubProduct.StockSet | shopping/models.py:164 | `stock_set` holds exactly the stock records that refer to the sub-product |
| Models.SubProduct.GetAllocatableStockNum | shopping/models.py:163-164 | the total is 0 when no record refers to the sub-product and non-negative when none of its records is negative |
| Models.AllocatableStockNumIsSum | shopping/models.py:163-164 | the total equals the sum of the allocatable counts over the sub-product's stock records |
| Models.AllocatableStockNumConcat | shopping/models.py:164 | the total over two tables is the sum of the totals |
| Models.AllocatableStockNumAppend | shopping/models.py:164 | a new stock record raises the total by its allocatable count if it belongs to the sub-product and leaves it unchanged otherwise |
| Models.AllocatableStockNumPermutation | shopping/models.py:164 | the total does not depend on the order of the stock table |
| Models.SubProduct.Valid | shopping/models.py:149 | a valid sub-product's price is at least 1 |
| Models.ProductCart.constructor | shopping/models.py:200-204 | a new cart line has quantity 0 and is shown |
| Models.ProductCart.GetSum | shopping/models.py:206-207 | with a valid price and a non-negative quantity the line value is at least the quantity; quantity 0 gives 0 |
| Models.GetSumStrictlyMonotone | shopping/models.py:206-207 | with a price of at least 1 (the field's validator, line 149) the line value strictly grows with the quantity |
| Models.ProductCart.GetAvailableStocks | shopping/models.py:209-211 | the available stocks are exactly the line's sub-product's records with a positive allocatable count |
| Models.AvailableStocksOfStockSet | shopping/models.py:209-211 | the available stocks are the stock set filtered on a positive count, an order-preserving subsequence of it |
| Models.AvailableStocksKeepTotal | shopping/models.py:210 | when no record is negative, the available stocks hold the whole allocatable total |
| Views.ConvertSpacesAndSplitKeywords | shopping/views.py:36-38 | the keyword list is never empty and no keyword holds an ASCII or a full-width space |
| Views.KeywordsRoundTrip | shopping/views.py:36-38 | joining the keywords with a space gives the input with full-width spaces made ASCII, and splitting that again gives the keywords |
| Views.KeywordsCount | shopping/views.py:36-38 | there is one keyword more than there are spaces of either width in the input |
| Views.KeywordsOfEmptyInput | shopping/views.py:54-55 | the empty search box gives the single empty keyword |
| Views.AndAll | shopping/views.py:42 | the `reduce(operator.and_, ...)` over the keyword lookups, folding from the left onto an accumulated query |
| Views.AndAllMeaning | shopping/views.py:42 | conjoining keyword lookups onto a query matches a name exactly when the query does and the name holds every keyword |
| Views.KeywordQuery | shopping/views.py:42 | the reduced query is missing exactly for an empty keyword list and otherwise matches a name exactly when it holds every keyword |
| Views.ProductMatches | shopping/views.py:43-47 | a product passes the search filter when its name satisfies the query and, when a category is given, the product is in that category |
| Views.SearchProductsWithKeywords | shopping/views.py:41-48 | the result holds exactly the products whose name holds every keyword and, when a category is given, that are in it, in their original order; an empty keyword list fails |
| Views.SearchAfterSplitSucceeds | shopping/views.py:55-61 | searching with the keywords split from any input never hits the empty `reduce` |
| Views.EmptySearchFindsEverything | shopping/views.py:41-48 | the empty keyword without a category returns every product |
| Views.GetCategoryFromCategoryIdOrReturnNone | shopping/views.py:26-33 | an id that does not parse gives None; a parsed id gives the category with that id, and raises DoesNotExist exactly when there is none |
| Views.DefaultCategoryIsNone | shopping/views.py:52-53 | the form's default category "all" gives None |
| Views.SelectSubProduct | shopping/views.py:71-76 | id 0 gives the first sub-product; an id that names a sub-product gives one with that id; an id that names none falls back to the first; None only when there are none |
| Views.SelectPresentSubProduct | shopping/views.py:71-76 | with unique ids, an id that names a sub-product selects exactly that sub-product |
| Views.ProductById | shopping/views.py:68 | the product lookup returns the product with that id and raises DoesNotExist exactly when there is none |
| Views.GetProductDetailContext | shopping/views.py:67-82 | the context holds the product with that id, exactly its sub-products, a shown one among them and that one's allocatable total; it fails on the product lookup exactly when the lookup fails, and for a missing sub-product exactly when the product has none |
| Views.AddToCart | shopping/views.py:109-120 | a new line takes the requested quantity; an existing line becomes old plus added exactly when that is within the allocatable stock, and otherwise keeps its quantity and the warning is set; a line within stock stays within stock; `added` is the line |
| CartSumFilter.LineSums | shopping/templatetags/cart_sum.py:19 | the comprehension has one entry per cart line: its `get_sum` |
| CartSumFilter.CartSum | shopping/templatetags/cart_sum.py:10-21 | the cart total fails exactly on an empty cart and otherwise is the sum of the line values |
| CartSumFilter.CartSumSingle | shopping/templatetags/cart_sum.py:19 | a one-line cart totals to that line's value |
| CartSumFilter.CartSumAppend | shopping/templatetags/cart_sum.py:19 | adding a line to a non-empty cart raises the total by that line's value |
| CartSumFilter.CartSumNonNegative | shopping/templatetags/cart_sum.py:19 | with valid prices and non-negative quantities the total is non-negative |
| CartSumFilter.CartSumPermutation | shopping/templatetags/cart_sum.py:19 | the total does not depend on the order of the lines |

## Left out

- Stock allocation (reserve, release, planning, order commit): the code contains none of it; `Stock` only declares the two counters (shopping/models.py:186-187).
- Database access: querysets, `get_or_create`, `objects.latest` and `get_next` (shopping/models.py:16-20). Tables are sequences of rows; the `created` flag of `get_or_create` is a parameter of `Views.AddToCart`.
- Views.AddToCart: the line `get_or_create` returns is taken as given. The code passes the tuple returned by the cart's `get_or_create` as `parent_cart` (shopping/views.py:110), builds a redirect it never returns and never saves the line (shopping/views.py:122); the model states the evident rule, not these side effects.
- Views.AddToCart: the GET branch, the parsing of the posted `sub_product_id` and `quantity`, `get_object_or_404` and the detail context the view also builds are request handling.
- Models.ProductCart.GetAvailableStocks: the code filters stocks on `product=self`, where `self` is the cart line rather than a sub-product (shopping/models.py:210); the model uses the line's sub-product, the evident intent.
- `Stock.warehouse` is a foreign key without a target (shopping/models.py:189); the model keeps the warehouse as an id and nothing reads it.
- `Warehouse.calc_estimated_time_available` reads the wall clock (shopping/models.py:172-181).
- Request and response plumbing: `index`, `search_result`, `product_detail`, `CartView`, URL routing (shopping/urls.py, which names two views that shopping/views.py does not define) and admin registration (shopping/admin.py).
- Authentication, user profiles and e-mail (accounts/views.py, `ShoppingUser.clean`, `email_user`).
- PyStr.ParseInt: `int()` also accepts surrounding whitespace, underscores between digits and non-ASCII digits; the model accepts only an optional sign followed by ASCII digits.
- PyStr.Contains: Django's `contains` lookup is case-sensitive on most databases but not on SQLite; the model is case-sensitive.
- Views.SelectSubProduct: the model does not say which row `first()` returns among rows with equal primary keys; primary keys are unique, so it does not arise.
- Python integers are unbounded and so are Dafny's; the database's 32-bit `IntegerField` range is not modelled.
