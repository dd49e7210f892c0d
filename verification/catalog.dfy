/** The catalog records the order core reads prices from: `ProductInfo` rows
    (backend/models.py) and the `filter(product=...).first()` lookup on them. */
module Catalog {
  import opened Wrappers

  /** Primary keys of Django model rows. */
  type ProductId = nat

  /** A `ProductInfo` row; `price` is the two-decimal price in cents. */
  datatype ProductInfo = ProductInfo(model: string, price: int, priceRrc: int, product: ProductId)

  /** `ProductInfo.objects.filter(product=p).first()`: the rows are given in
      primary-key order, so `first()` is the earliest row for `p`. */
  function FirstInfoFor(infos: seq<ProductInfo>, p: ProductId): (r: Option<ProductInfo>)
    ensures r.None? <==> forall i :: 0 <= i < |infos| ==> infos[i].product != p
    ensures r.Some? ==> exists i :: 0 <= i < |infos| && infos[i] == r.value && infos[i].product == p
                                  && forall j :: 0 <= j < i ==> infos[j].product != p
  {
    if |infos| == 0 then None
    else if infos[0].product == p then Some(infos[0])
    else
      var rest := FirstInfoFor(infos[1..], p);
      assert forall i :: 1 <= i < |infos| ==> infos[i] == infos[1..][i - 1];
      if rest.Some? then
        ghost var k :| 0 <= k < |infos[1..]| && infos[1..][k] == rest.value && infos[1..][k].product == p
                       && forall j :: 0 <= j < k ==> infos[1..][j].product != p;
        assert infos[k + 1] == rest.value;
        rest
      else rest
  }
}
