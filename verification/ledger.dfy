/** The stock ledger: `OrderProduct.update_product_quantity` in backend/models.py.
    A shop's stock of a product (`ShopProduct.quantity`) is reserved with the
    action "out_of_stock" and released with "in_stock"; a reservation larger than
    the stock is refused instead of overselling. `save()` is a no-op on the
    in-memory state, so an update is the new inventory. */
module Ledger {
  import opened Wrappers
  import opened Catalog

  type ShopProductId = nat

  /** A `ShopProduct` row: how many units of `product` the shop holds. */
  datatype ShopProduct = ShopProduct(shop: nat, product: ProductId, quantity: int)

  /** All `ShopProduct` rows by primary key. */
  type Inventory = map<ShopProductId, ShopProduct>

  /** An `OrderProduct` row: `quantity` units of `product`, drawn from the
      stock row `shopProduct`. */
  datatype OrderProduct = OrderProduct(product: ProductId, shopProduct: ShopProductId, quantity: int)

  /** The `ValueError` raised when the stock cannot cover the line. */
  datatype LedgerError = InsufficientStock

  /** The inventory after the call, and what the call returned
      (`None` when no branch matched the action). */
  datatype Update = Update(inventory: Inventory, returned: Option<int>)

  const OutOfStock: string := "out_of_stock"
  const InStock: string := "in_stock"

  /** The stock row with its quantity replaced. */
  function WithQuantity(inventory: Inventory, id: ShopProductId, q: int): Inventory
    requires id in inventory
  {
    inventory[id := inventory[id].(quantity := q)]
  }

  /** Every row other than `id` is the same in both inventories, and `id` keeps its shop and product. */
  ghost predicate OnlyQuantityOf(before: Inventory, after: Inventory, id: ShopProductId)
  {
    && after.Keys == before.Keys
    && (forall k :: k in before && k != id ==> after[k] == before[k])
    && (id in before ==> after[id].shop == before[id].shop && after[id].product == before[id].product)
  }

  /** `update_product_quantity(action)` applied to `line`. The foreign key
      `line.shopProduct` always names an existing row. */
  function UpdateProductQuantity(inventory: Inventory, line: OrderProduct, action: string): (r: Result<Update, LedgerError>)
    requires line.shopProduct in inventory
    ensures r.Ok? ==> OnlyQuantityOf(inventory, r.value.inventory, line.shopProduct)
    // a reservation the stock covers takes exactly the line's quantity and returns the new stock
    ensures action == OutOfStock && inventory[line.shopProduct].quantity >= line.quantity ==>
              && r.Ok?
              && r.value.inventory[line.shopProduct].quantity == inventory[line.shopProduct].quantity - line.quantity
              && r.value.returned == Some(r.value.inventory[line.shopProduct].quantity)
    // a reservation the stock cannot cover is refused and changes nothing
    ensures action == OutOfStock ==> (r.Err? <==> inventory[line.shopProduct].quantity < line.quantity)
    ensures r.Err? ==> r.error == InsufficientStock && action == OutOfStock
    // a successful reservation never leaves the row negative, whatever the line's sign
    ensures action == OutOfStock && r.Ok? ==> r.value.inventory[line.shopProduct].quantity >= 0
    // a release is unconditional
    ensures action == InStock ==>
              && r.Ok?
              && r.value.inventory[line.shopProduct].quantity == inventory[line.shopProduct].quantity + line.quantity
              && r.value.returned == Some(r.value.inventory[line.shopProduct].quantity)
    // any other action falls through both branches
    ensures action != OutOfStock && action != InStock ==> r == Ok(Update(inventory, None))
  {
    var stock := inventory[line.shopProduct].quantity;
    if action == OutOfStock then
      if stock >= line.quantity then
        var after := WithQuantity(inventory, line.shopProduct, stock - line.quantity);
        Ok(Update(after, Some(stock - line.quantity)))
      else
        Err(InsufficientStock)
    else if action == InStock then
      var after := WithQuantity(inventory, line.shopProduct, stock + line.quantity);
      Ok(Update(after, Some(stock + line.quantity)))
    else
      Ok(Update(inventory, None))
  }

  /** A successful reservation followed by a release of the same line restores the inventory. */
  lemma ReserveThenReleaseRestores(inventory: Inventory, line: OrderProduct)
    requires line.shopProduct in inventory
    requires UpdateProductQuantity(inventory, line, OutOfStock).Ok?
    ensures var reserved := UpdateProductQuantity(inventory, line, OutOfStock).value.inventory;
            line.shopProduct in reserved
            && UpdateProductQuantity(reserved, line, InStock).Ok?
            && UpdateProductQuantity(reserved, line, InStock).value.inventory == inventory
  {
    var reserved := UpdateProductQuantity(inventory, line, OutOfStock).value.inventory;
    var restored := UpdateProductQuantity(reserved, line, InStock).value.inventory;
    assert restored[line.shopProduct] == inventory[line.shopProduct];
    assert restored.Keys == inventory.Keys;
  }

  /** On non-negative stock, a release followed by a reservation of the same
      line always succeeds and restores the inventory. */
  lemma ReleaseThenReserveRestores(inventory: Inventory, line: OrderProduct)
    requires line.shopProduct in inventory
    requires inventory[line.shopProduct].quantity >= 0
    ensures var released := UpdateProductQuantity(inventory, line, InStock).value.inventory;
            line.shopProduct in released
            && UpdateProductQuantity(released, line, OutOfStock).Ok?
            && UpdateProductQuantity(released, line, OutOfStock).value.inventory == inventory
  {
    var released := UpdateProductQuantity(inventory, line, InStock).value.inventory;
    assert released[line.shopProduct].quantity >= line.quantity;
    var restored := UpdateProductQuantity(released, line, OutOfStock).value.inventory;
    assert restored[line.shopProduct] == inventory[line.shopProduct];
    assert restored.Keys == inventory.Keys;
  }

  /** One ledger call made by some request. */
  datatype Step = Step(line: OrderProduct, action: string)

  ghost predicate StepsOn(inventory: Inventory, steps: seq<Step>)
  {
    forall i :: 0 <= i < |steps| ==> steps[i].line.shopProduct in inventory
  }

  /** Independent requests in sequence: a refused reservation raises inside its
      own request, which leaves the stock as it was. */
  function Replay(inventory: Inventory, steps: seq<Step>): (r: Inventory)
    requires StepsOn(inventory, steps)
    ensures r.Keys == inventory.Keys
    decreases |steps|
  {
    if |steps| == 0 then inventory
    else
      var next := match UpdateProductQuantity(inventory, steps[0].line, steps[0].action)
                  case Ok(u) => u.inventory
                  case Err(_) => inventory;
      Replay(next, steps[1..])
  }

  ghost predicate NonNegative(inventory: Inventory)
  {
    forall k :: k in inventory ==> inventory[k].quantity >= 0
  }

  /** Order lines never hold a negative number of units. */
  ghost predicate LinesNonNegative(steps: seq<Step>)
  {
    forall i :: 0 <= i < |steps| ==> steps[i].line.quantity >= 0
  }

  /** Requests run one at a time, each reading the current stock: stock that
      starts non-negative stays non-negative. Concurrent requests reading the
      same stale stock are outside this replay. */
  lemma {:induction false} ReplayKeepsStockNonNegative(inventory: Inventory, steps: seq<Step>)
    requires StepsOn(inventory, steps)
    requires NonNegative(inventory)
    requires LinesNonNegative(steps)
    ensures NonNegative(Replay(inventory, steps))
    decreases |steps|
  {
    if |steps| > 0 {
      var u := UpdateProductQuantity(inventory, steps[0].line, steps[0].action);
      var next := if u.Ok? then u.value.inventory else inventory;
      assert NonNegative(next) by {
        forall k | k in next ensures next[k].quantity >= 0 {
          if u.Ok? && k == steps[0].line.shopProduct {
            assert steps[0].line.quantity >= 0;
          }
        }
      }
      assert StepsOn(next, steps[1..]) by {
        forall i | 0 <= i < |steps[1..]| ensures steps[1..][i].line.shopProduct in next {
          assert steps[1..][i] == steps[i + 1];
        }
      }
      assert LinesNonNegative(steps[1..]) by {
        forall i | 0 <= i < |steps[1..]| ensures steps[1..][i].line.quantity >= 0 {
          assert steps[1..][i] == steps[i + 1];
        }
      }
      ReplayKeepsStockNonNegative(next, steps[1..]);
    }
  }
}
