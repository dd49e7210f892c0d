/** The order aggregate of backend/models.py: the declared statuses, the
    order's price lookup, its total and its status update. */
module Orders {
  import opened Wrappers
  import opened Catalog
  import opened Ledger

  /** The four entries of `ORDER_STATUS_CHOICES`, in declaration order. */
  datatype Status = Empty | New | MakingAnOrder | Done

  /** The stored code of a status. */
  function Code(s: Status): (c: string)
    ensures ParseStatus(c) == Some(s)
  {
    match s
    case Empty => "empty"
    case New => "new"
    case MakingAnOrder => "making an order"
    case Done => "done"
  }

  /** The human-readable label of a status. */
  function Label(s: Status): (l: string)
    ensures (Code(s), l) in StatusChoices
  {
    match s
    case Empty => "Пустой"
    case New => "Новый"
    case MakingAnOrder => "Оформление заказа"
    case Done => "Завершен"
  }

  /** `ORDER_STATUS_CHOICES` as (code, label) pairs. */
  const StatusChoices: seq<(string, string)> :=
    [("empty", "Пустой"), ("new", "Новый"),
     ("making an order", "Оформление заказа"), ("done", "Завершен")]

  /** The status a stored code denotes, if it is one of the declared codes. */
  function ParseStatus(code: string): (r: Option<Status>)
    ensures r.Some? <==> exists i :: 0 <= i < |StatusChoices| && StatusChoices[i].0 == code
  {
    if code == "empty" then assert StatusChoices[0].0 == code; Some(Empty)
    else if code == "new" then assert StatusChoices[1].0 == code; Some(New)
    else if code == "making an order" then assert StatusChoices[2].0 == code; Some(MakingAnOrder)
    else if code == "done" then assert StatusChoices[3].0 == code; Some(Done)
    else None
  }

  /** Codes are distinct, so a stored code names exactly one status. */
  lemma CodeInjective(s: Status, t: Status)
    ensures Code(s) == Code(t) ==> s == t
  {
    assert ParseStatus(Code(s)) == Some(s);
  }

  /** A `DeliveryContacts` row. */
  datatype DeliveryContacts = DeliveryContacts(city: string, street: string, houseNumber: string,
                                               apartmentNumber: string, phoneNumber: string)

  /** An `Order` row together with its `order_products`, in primary-key order.
      `totalPrice` is in cents. */
  datatype Order = Order(user: nat, status: Status, deliveryChoice: bool, totalPrice: int,
                         deliveryContacts: Option<DeliveryContacts>, lines: seq<OrderProduct>)

  /** Why a price lookup fails: `order_products.first()` or the `ProductInfo`
      `.first()` is `None`, and reading `.product` / `.price` from it raises. */
  datatype OrderError = NoLines | NoProductInfo

  /** A freshly created order, with every field at its declared default. */
  function NewOrder(user: nat): (o: Order)
    ensures o.user == user && o.lines == []
    ensures ParseStatus(StatusChoices[0].0) == Some(o.status)
    ensures o.totalPrice == 0 && !o.deliveryChoice && o.deliveryContacts.None?
  {
    Order(user, Empty, false, 0, None, [])
  }

  /** `get_product_price`: the price of the first `ProductInfo` row of the
      product on the order's first line. */
  function GetProductPrice(o: Order, infos: seq<ProductInfo>): (r: Result<int, OrderError>)
    ensures r == Err(NoLines) <==> |o.lines| == 0
    ensures r == Err(NoProductInfo) <==>
              |o.lines| > 0 && forall i :: 0 <= i < |infos| ==> infos[i].product != o.lines[0].product
    ensures r.Ok? ==> exists i :: 0 <= i < |infos| && infos[i].product == o.lines[0].product
                                 && infos[i].price == r.value
                                 && forall j :: 0 <= j < i ==> infos[j].product != o.lines[0].product
  {
    if |o.lines| == 0 then Err(NoLines)
    else match FirstInfoFor(infos, o.lines[0].product)
      case None => Err(NoProductInfo)
      case Some(info) => Ok(info.price)
  }

  /** Sum of the line quantities. */
  function SumQuantities(lines: seq<OrderProduct>): int
  {
    if |lines| == 0 then 0 else lines[0].quantity + SumQuantities(lines[1..])
  }

  /** `sum(price * item.quantity for item in lines)` with one price for every line. */
  function SumAtPrice(price: int, lines: seq<OrderProduct>): int
  {
    if |lines| == 0 then 0 else price * lines[0].quantity + SumAtPrice(price, lines[1..])
  }

  lemma {:induction false} SumAtPriceFactors(price: int, lines: seq<OrderProduct>)
    ensures SumAtPrice(price, lines) == price * SumQuantities(lines)
    decreases |lines|
  {
    if |lines| > 0 {
      SumAtPriceFactors(price, lines[1..]);
      assert price * (lines[0].quantity + SumQuantities(lines[1..]))
          == price * lines[0].quantity + price * SumQuantities(lines[1..]);
    }
  }

  /** `update_total_price` as written: zero for an order without lines,
      otherwise every line is priced at the FIRST line's product price.
      The method's `price` parameter is never read, so it is not modelled. */
  function UpdateTotalPrice(o: Order, infos: seq<ProductInfo>): (r: Result<Order, OrderError>)
    ensures |o.lines| == 0 ==> r == Ok(o.(totalPrice := 0))
    ensures |o.lines| > 0 ==> (r.Ok? <==> GetProductPrice(o, infos).Ok?)
    ensures r.Err? ==> r.error == NoProductInfo
    ensures r.Ok? && |o.lines| > 0 ==>
              r.value.totalPrice == GetProductPrice(o, infos).value * SumQuantities(o.lines)
    ensures r.Ok? ==> r.value == o.(totalPrice := r.value.totalPrice)
  {
    if |o.lines| == 0 then Ok(o.(totalPrice := 0))
    else
      match GetProductPrice(o, infos)
      case Err(e) => Err(e)
      case Ok(price) =>
        SumAtPriceFactors(price, o.lines);
        Ok(o.(totalPrice := SumAtPrice(price, o.lines)))
  }

  /** The price list entry for one line: the price of the first `ProductInfo`
      row of the line's OWN product. */
  function LinePrice(line: OrderProduct, infos: seq<ProductInfo>): Option<int>
  {
    match FirstInfoFor(infos, line.product)
    case None => None
    case Some(info) => Some(info.price)
  }

  /** Sum over the lines of each line's own price times its quantity; fails
      when some line's product has no `ProductInfo` row. */
  function LinesTotal(lines: seq<OrderProduct>, infos: seq<ProductInfo>): (r: Result<int, OrderError>)
    ensures r.Ok? <==> forall i :: 0 <= i < |lines| ==> LinePrice(lines[i], infos).Some?
    ensures r.Err? ==> r.error == NoProductInfo
    decreases |lines|
  {
    if |lines| == 0 then Ok(0)
    else
      var rest := LinesTotal(lines[1..], infos);
      assert forall i :: 1 <= i < |lines| ==> lines[i] == lines[1..][i - 1];
      match LinePrice(lines[0], infos)
      case None => Err(NoProductInfo)
      case Some(price) =>
        if rest.Err? then
          assert exists i :: 1 <= i < |lines| && LinePrice(lines[i], infos).None? by {
            var k :| 0 <= k < |lines[1..]| && LinePrice(lines[1..][k], infos).None?;
            assert lines[k + 1] == lines[1..][k];
          }
          rest
        else Ok(price * lines[0].quantity + rest.value)
  }

  /** The total of concatenated line lists is the sum of their totals. */
  lemma {:induction false} LinesTotalConcat(a: seq<OrderProduct>, b: seq<OrderProduct>, infos: seq<ProductInfo>)
    requires LinesTotal(a, infos).Ok? && LinesTotal(b, infos).Ok?
    ensures LinesTotal(a + b, infos).Ok?
    ensures LinesTotal(a + b, infos).value == LinesTotal(a, infos).value + LinesTotal(b, infos).value
    decreases |a|
  {
    if |a| == 0 {
      assert a + b == b;
    } else {
      assert (a + b)[1..] == a[1..] + b;
      assert (a + b)[0] == a[0];
      LinesTotalConcat(a[1..], b, infos);
    }
  }

  /** When every line carries the same product, the per-line total is that
      product's price times the total quantity. */
  lemma {:induction false} LinesTotalOneProduct(lines: seq<OrderProduct>, infos: seq<ProductInfo>, price: int)
    requires |lines| > 0 && LinePrice(lines[0], infos) == Some(price)
    requires forall i :: 0 <= i < |lines| ==> lines[i].product == lines[0].product
    ensures LinesTotal(lines, infos) == Ok(price * SumQuantities(lines))
    decreases |lines|
  {
    if |lines| > 1 {
      assert lines[1..][0] == lines[1];
      LinesTotalOneProduct(lines[1..], infos, price);
      assert price * (lines[0].quantity + SumQuantities(lines[1..]))
          == price * lines[0].quantity + price * SumQuantities(lines[1..]);
    }
  }

  /** `update_total_price` as evidently intended: every line priced at its own
      product's price. */
  function UpdateTotalPriceByLine(o: Order, infos: seq<ProductInfo>): (r: Result<Order, OrderError>)
    ensures |o.lines| == 0 ==> r == Ok(o.(totalPrice := 0))
    ensures r.Ok? <==> forall i :: 0 <= i < |o.lines| ==> LinePrice(o.lines[i], infos).Some?
    ensures r.Ok? ==> r.value == o.(totalPrice := r.value.totalPrice)
  {
    match LinesTotal(o.lines, infos)
    case Err(e) => Err(e)
    case Ok(total) => Ok(o.(totalPrice := total))
  }

  /** Adding a line to an order adds exactly that line's price times quantity to the total. */
  lemma AppendLineAddsItsAmount(o: Order, line: OrderProduct, infos: seq<ProductInfo>)
    requires UpdateTotalPriceByLine(o, infos).Ok? && LinePrice(line, infos).Some?
    ensures UpdateTotalPriceByLine(o.(lines := o.lines + [line]), infos).Ok?
    ensures UpdateTotalPriceByLine(o.(lines := o.lines + [line]), infos).value.totalPrice
         == UpdateTotalPriceByLine(o, infos).value.totalPrice + LinePrice(line, infos).value * line.quantity
  {
    assert LinesTotal([line], infos) == Ok(LinePrice(line, infos).value * line.quantity);
    LinesTotalConcat(o.lines, [line], infos);
  }

  /** The as-written total and the per-line total agree whenever the order
      holds a single product. */
  lemma TotalsAgreeOnOneProduct(o: Order, infos: seq<ProductInfo>)
    requires forall i :: 0 <= i < |o.lines| ==> o.lines[i].product == o.lines[0].product
    ensures UpdateTotalPriceByLine(o, infos) == UpdateTotalPrice(o, infos)
  {
    if |o.lines| > 0 {
      match LinePrice(o.lines[0], infos)
      case None =>
        assert UpdateTotalPriceByLine(o, infos).Err?;
      case Some(price) =>
        LinesTotalOneProduct(o.lines, infos, price);
    }
  }

  /** Two products at different prices: the as-written total charges the
      second line at the first line's price. */
  lemma FirstPriceTotalDiffers()
    ensures var infos := [ProductInfo("phone", 10000, 12000, 1), ProductInfo("tv", 25000, 30000, 2)];
            var o := NewOrder(7).(lines := [OrderProduct(1, 0, 1), OrderProduct(2, 1, 1)]);
            && UpdateTotalPrice(o, infos) == Ok(o.(totalPrice := 20000))
            && UpdateTotalPriceByLine(o, infos) == Ok(o.(totalPrice := 35000))
  {
    var infos := [ProductInfo("phone", 10000, 12000, 1), ProductInfo("tv", 25000, 30000, 2)];
    var o := NewOrder(7).(lines := [OrderProduct(1, 0, 1), OrderProduct(2, 1, 1)]);
    assert FirstInfoFor(infos, 1) == Some(infos[0]);
    assert FirstInfoFor(infos[1..], 2) == Some(infos[1]);
    assert FirstInfoFor(infos, 2) == Some(infos[1]);
    assert o.lines[1..] == [OrderProduct(2, 1, 1)];
    assert o.lines[1..][1..] == [];
  }

  /** The status an order's lines call for. */
  function StatusFor(lines: seq<OrderProduct>): Status
  {
    if |lines| == 0 then Empty else New
  }

  /** `update_status`: "empty" without lines, "new" with lines, whatever the
      status was before, "done" included. */
  function UpdateStatus(o: Order): (r: Order)
    ensures r.status == Empty <==> |o.lines| == 0
    ensures r.status == New <==> |o.lines| > 0
    ensures r == o.(status := r.status)
  {
    if |o.lines| == 0 then o.(status := Empty) else o.(status := New)
  }

  /** Nothing protects a finalized order: a "done" order with lines becomes "new" again. */
  lemma UpdateStatusReopensDone(o: Order)
    requires o.status == Done && |o.lines| > 0
    ensures UpdateStatus(o).status == New
  {
  }

  /** Updating the status twice is the same as once. */
  lemma UpdateStatusIdempotent(o: Order)
    ensures UpdateStatus(UpdateStatus(o)) == UpdateStatus(o)
  {
  }
}
