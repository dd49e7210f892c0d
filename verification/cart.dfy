/** Add-to-cart and remove-from-cart requests composed from the primitives of
    the order aggregate and the stock ledger. The repository declares these
    primitives but no request that calls them (its order view set is empty),
    so these compositions are scenarios built on the model, not a model of
    any code in the repository. They reserve on add and release on remove,
    price every line at its own product's price, and refuse to touch an order
    whose status is "done". */
module Cart {
  import opened Wrappers
  import opened Catalog
  import opened Ledger
  import opened Orders

  /** A user's working order together with the stock it draws on. */
  datatype Cart = Cart(order: Order, inventory: Inventory)

  datatype CartError =
    | OrderAlreadyFinalized
    | InvalidQuantity
    | StockNotFound
    | LineNotFound
    | Stock(ledger: LedgerError)
    | Pricing(order: OrderError)

  /** Position of the first line for `product`. */
  function FindLine(lines: seq<OrderProduct>, product: ProductId): (r: Option<nat>)
    ensures r.None? <==> forall i :: 0 <= i < |lines| ==> lines[i].product != product
    ensures r.Some? ==> r.value < |lines| && lines[r.value].product == product
                        && forall j :: 0 <= j < r.value ==> lines[j].product != product
    decreases |lines|
  {
    if |lines| == 0 then None
    else if lines[0].product == product then Some(0)
    else
      var rest := FindLine(lines[1..], product);
      assert forall i :: 1 <= i < |lines| ==> lines[i] == lines[1..][i - 1];
      match rest
      case None => None
      case Some(k) => Some(k + 1)
  }

  /** The order's total and status are what its lines call for. */
  ghost predicate Consistent(o: Order, infos: seq<ProductInfo>)
  {
    && LinesTotal(o.lines, infos).Ok?
    && o.totalPrice == LinesTotal(o.lines, infos).value
    && o.status == StatusFor(o.lines)
  }

  /** At most one line per product, each holding at least one unit. */
  ghost predicate WellFormedLines(lines: seq<OrderProduct>)
  {
    && (forall i, j :: 0 <= i < j < |lines| ==> lines[i].product != lines[j].product)
    && (forall i :: 0 <= i < |lines| ==> lines[i].quantity > 0)
  }

  /** Re-price the order and re-evaluate its status after its lines changed. */
  function Settle(o: Order, lines: seq<OrderProduct>, infos: seq<ProductInfo>): (r: Result<Order, OrderError>)
    ensures r.Ok? ==> r.value.lines == lines && Consistent(r.value, infos)
    ensures r.Ok? ==> r.value.user == o.user && r.value.deliveryChoice == o.deliveryChoice
                      && r.value.deliveryContacts == o.deliveryContacts
    ensures r.Ok? <==> LinesTotal(lines, infos).Ok?
  {
    match UpdateTotalPriceByLine(o.(lines := lines), infos)
    case Err(e) => Err(e)
    case Ok(priced) => Ok(UpdateStatus(priced))
  }

  /** The stock row an addition draws on: the existing line's row, or `sp` for a new line. */
  function SourceRow(lines: seq<OrderProduct>, product: ProductId, sp: ShopProductId): ShopProductId
  {
    match FindLine(lines, product)
    case Some(i) => lines[i].shopProduct
    case None => sp
  }

  /** The lines after adding `quantity` units of `product` from row `id`. */
  function GrowLines(lines: seq<OrderProduct>, product: ProductId, id: ShopProductId, quantity: int): (r: seq<OrderProduct>)
    ensures exists i :: 0 <= i < |r| && r[i].product == product
    ensures quantity > 0 && WellFormedLines(lines) ==> WellFormedLines(r)
  {
    match FindLine(lines, product)
    case Some(i) =>
      var r := lines[i := lines[i].(quantity := lines[i].quantity + quantity)];
      assert r[i].product == product;
      r
    case None =>
      var r := lines + [OrderProduct(product, id, quantity)];
      assert r[|lines|].product == product;
      r
  }

  /** The lines after taking `quantity` units out of line `i`; an emptied line is dropped. */
  function ShrinkLines(lines: seq<OrderProduct>, i: nat, quantity: int): (r: seq<OrderProduct>)
    requires i < |lines| && 0 < quantity <= lines[i].quantity
    ensures |r| <= |lines|
    ensures WellFormedLines(lines) ==> WellFormedLines(r)
  {
    if quantity == lines[i].quantity then
      var r := lines[..i] + lines[i + 1..];
      assert forall k :: 0 <= k < |r| ==> r[k] == lines[if k < i then k else k + 1];
      r
    else lines[i := lines[i].(quantity := lines[i].quantity - quantity)]
  }

  /** Put `quantity` units of `product`, drawn from stock row `sp`, into the
      cart: an existing line for the product grows and only the added units
      are reserved; otherwise a new line is appended. All-or-nothing. */
  function AddProduct(c: Cart, product: ProductId, sp: ShopProductId, quantity: int,
                      infos: seq<ProductInfo>): (r: Result<Cart, CartError>)
    ensures c.order.status == Done ==> r == Err(OrderAlreadyFinalized)
    ensures c.order.status != Done && quantity <= 0 ==> r == Err(InvalidQuantity)
    ensures r.Ok? ==> r.value.order.status == New && Consistent(r.value.order, infos)
    ensures r.Ok? ==> NonNegative(c.inventory) ==> NonNegative(r.value.inventory)
    ensures r.Ok? ==> r.value.inventory.Keys == c.inventory.Keys
    ensures r.Ok? && WellFormedLines(c.order.lines) ==> WellFormedLines(r.value.order.lines)
    ensures r.Ok? ==> exists i :: 0 <= i < |r.value.order.lines| && r.value.order.lines[i].product == product
    ensures r.Ok? ==> var id := SourceRow(c.order.lines, product, sp);
                      && id in c.inventory
                      && r.value.inventory == c.inventory[id := c.inventory[id].(quantity := c.inventory[id].quantity - quantity)]
  {
    if c.order.status == Done then Err(OrderAlreadyFinalized)
    else if quantity <= 0 then Err(InvalidQuantity)
    else
      var id := SourceRow(c.order.lines, product, sp);
      if id !in c.inventory || c.inventory[id].product != product then Err(StockNotFound)
      else
        match UpdateProductQuantity(c.inventory, OrderProduct(product, id, quantity), OutOfStock)
        case Err(e) => Err(Stock(e))
        case Ok(u) =>
          match Settle(c.order, GrowLines(c.order.lines, product, id, quantity), infos)
          case Err(e) => Err(Pricing(e))
          case Ok(o) => Ok(Cart(o, u.inventory))
  }

  /** Take `quantity` units of `product` out of the cart and release them to
      stock; the line disappears when it empties. Removing more than the line
      holds is refused. All-or-nothing. */
  function RemoveProduct(c: Cart, product: ProductId, quantity: int, infos: seq<ProductInfo>): (r: Result<Cart, CartError>)
    ensures c.order.status == Done ==> r == Err(OrderAlreadyFinalized)
    ensures c.order.status != Done && (forall i :: 0 <= i < |c.order.lines| ==> c.order.lines[i].product != product)
            ==> r == Err(LineNotFound)
    ensures c.order.status != Done && FindLine(c.order.lines, product).Some?
            && quantity > c.order.lines[FindLine(c.order.lines, product).value].quantity
            ==> r == Err(InvalidQuantity)
    ensures r.Ok? ==> Consistent(r.value.order, infos)
    ensures r.Ok? ==> r.value.inventory.Keys == c.inventory.Keys
    ensures r.Ok? && WellFormedLines(c.order.lines) ==> WellFormedLines(r.value.order.lines)
    ensures r.Ok? ==> |r.value.order.lines| <= |c.order.lines|
    ensures r.Ok? ==> && FindLine(c.order.lines, product).Some?
                      && var id := c.order.lines[FindLine(c.order.lines, product).value].shopProduct;
                      && id in c.inventory
                      && r.value.inventory == c.inventory[id := c.inventory[id].(quantity := c.inventory[id].quantity + quantity)]
  {
    if c.order.status == Done then Err(OrderAlreadyFinalized)
    else
      match FindLine(c.order.lines, product)
      case None => Err(LineNotFound)
      case Some(i) =>
        var line := c.order.lines[i];
        if quantity <= 0 || quantity > line.quantity then Err(InvalidQuantity)
        else if line.shopProduct !in c.inventory then Err(StockNotFound)
        else
          var u := UpdateProductQuantity(c.inventory, OrderProduct(product, line.shopProduct, quantity), InStock);
          match Settle(c.order, ShrinkLines(c.order.lines, i, quantity), infos)
          case Err(e) => Err(Pricing(e))
          case Ok(o) => Ok(Cart(o, u.value.inventory))
  }

  /** A consistent order settled on its own lines is the same order. */
  lemma SettleConsistent(o: Order, infos: seq<ProductInfo>)
    requires Consistent(o, infos)
    ensures Settle(o, o.lines, infos) == Ok(o)
  {
  }

  /** Shrinking the line that growing touched, by the same amount, gives the old lines back. */
  lemma ShrinkUndoesGrow(lines: seq<OrderProduct>, product: ProductId, id: ShopProductId, quantity: int)
    requires quantity > 0 && WellFormedLines(lines)
    ensures var grown := GrowLines(lines, product, id, quantity);
            var i := FindLine(grown, product);
            && i.Some? && i.value < |grown| && 0 < quantity <= grown[i.value].quantity
            && grown[i.value].shopProduct == SourceRow(lines, product, id)
            && ShrinkLines(grown, i.value, quantity) == lines
  {
    var grown := GrowLines(lines, product, id, quantity);
    match FindLine(lines, product)
    case Some(i) =>
      assert FindLine(grown, product) == Some(i) by {
        var k := FindLine(grown, product).value;
        assert k <= i;
        assert grown[k].product == lines[k].product;
      }
      assert grown[i := grown[i].(quantity := grown[i].quantity - quantity)] == lines;
    case None =>
      var n := |lines|;
      assert FindLine(grown, product) == Some(n);
      assert grown[..n] + grown[n + 1..] == lines;
  }

  /** Adding `quantity` units and then removing them again returns the cart,
      stock included, exactly to where it was. */
  lemma AddThenRemoveRestores(c: Cart, product: ProductId, sp: ShopProductId, quantity: int, infos: seq<ProductInfo>)
    requires Consistent(c.order, infos) && WellFormedLines(c.order.lines)
    requires AddProduct(c, product, sp, quantity, infos).Ok?
    ensures RemoveProduct(AddProduct(c, product, sp, quantity, infos).value, product, quantity, infos) == Ok(c)
  {
    var lines := c.order.lines;
    var id := SourceRow(lines, product, sp);
    var grown := GrowLines(lines, product, id, quantity);
    var delta := OrderProduct(product, id, quantity);
    var reserved := UpdateProductQuantity(c.inventory, delta, OutOfStock);
    var added := Cart(Settle(c.order, grown, infos).value, reserved.value.inventory);
    assert AddProduct(c, product, sp, quantity, infos) == Ok(added);
    ReserveThenReleaseRestores(c.inventory, delta);
    ShrinkUndoesGrow(lines, product, id, quantity);
    SettleConsistent(c.order, infos);
    assert Settle(added.order, lines, infos) == Settle(c.order, lines, infos);
  }

  /** Stock 10 at 1.00 a unit: add 4, add 3 more, remove all 7. */
  lemma AddAddRemoveScenario()
    ensures var infos := [ProductInfo("phone", 100, 120, 1)];
            var c0 := Cart(NewOrder(7), map[0 := ShopProduct(1, 1, 10)]);
            var c1 := AddProduct(c0, 1, 0, 4, infos);
            && c1.Ok? && c1.value.inventory[0].quantity == 6
            && c1.value.order.totalPrice == 400 && c1.value.order.status == New
            && var c2 := AddProduct(c1.value, 1, 0, 3, infos);
            && c2.Ok? && c2.value.inventory[0].quantity == 3
            && c2.value.order.lines == [OrderProduct(1, 0, 7)] && c2.value.order.totalPrice == 700
            && var c3 := RemoveProduct(c2.value, 1, 7, infos);
            && c3.Ok? && c3.value.inventory[0].quantity == 10
            && c3.value.order.lines == [] && c3.value.order.totalPrice == 0 && c3.value.order.status == Empty
  {
    var infos := [ProductInfo("phone", 100, 120, 1)];
    assert FirstInfoFor(infos, 1) == Some(infos[0]);
    var c0 := Cart(NewOrder(7), map[0 := ShopProduct(1, 1, 10)]);
    var c1 := AddProduct(c0, 1, 0, 4, infos);
    assert c1.value.order.lines == [OrderProduct(1, 0, 4)];
    assert LinesTotal([OrderProduct(1, 0, 4)], infos) == Ok(400);
    var c2 := AddProduct(c1.value, 1, 0, 3, infos);
    assert c2.value.order.lines == [OrderProduct(1, 0, 7)];
    assert LinesTotal([OrderProduct(1, 0, 7)], infos) == Ok(700);
    var c3 := RemoveProduct(c2.value, 1, 7, infos);
    assert c3.value.order.lines == [];
  }

  /** Stock 5: asking for 6 is refused and nothing changes. */
  lemma OversellScenario()
    ensures AddProduct(Cart(NewOrder(7), map[0 := ShopProduct(1, 1, 5)]), 1, 0, 6, [ProductInfo("phone", 100, 120, 1)])
         == Err(Stock(InsufficientStock))
  {
  }
}
