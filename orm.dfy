/** The two queryset lookups the views use, over a table given as a sequence
    of rows: `objects.get(...)` and `first()`. */
module Orm {
  import opened Wrappers
  import opened PySeq

  /** The exceptions `objects.get` raises. */
  datatype GetError = DoesNotExist | MultipleObjectsReturned

  /** `Model.objects.get(lookup)`: the one row matching the lookup; no row
      raises DoesNotExist and more than one raises MultipleObjectsReturned. */
  function Get<T(!new)>(rows: seq<T>, lookup: T -> bool): (r: Result<T, GetError>)
    ensures r.Success? <==> |Filter(rows, lookup)| == 1
    ensures r.Success? ==> r.value in rows && lookup(r.value)
    ensures r == Failure(DoesNotExist) <==> forall x :: x in rows ==> !lookup(x)
  {
    var found := Filter(rows, lookup);
    if |found| == 0 then Failure(DoesNotExist)
    else
      assert found[0] in found;
      if |found| == 1 then Success(found[0]) else Failure(MultipleObjectsReturned)
  }

  /** `queryset.first()` on a queryset without an explicit ordering, which
      Django orders by primary key: the row with the least key (the earliest
      such row on a tie), or None when the queryset is empty. */
  function First<T(!new)>(rows: seq<T>, pk: T -> int): (r: Option<T>)
    ensures r.None? <==> rows == []
    ensures r.Some? ==> r.value in rows && forall x :: x in rows ==> pk(r.value) <= pk(x)
  {
    if rows == [] then None
    else
      match First(rows[1..], pk)
      case None => Some(rows[0])
      case Some(m) => if pk(rows[0]) <= pk(m) then Some(rows[0]) else Some(m)
  }
}
