/** The inventory ledger of the microservices lab: a table of products whose
    stock `POST /inventory/check` checks and decrements in place. */
module InventoryService {
  import opened Common

  datatype Product = Product(productId: int, name: string, stock: int, price: int)

  /** The table the service starts with. */
  const SeedInventory: seq<Product> := [
    Product(1, "Laptop", 10, 999),
    Product(2, "Phone", 5, 599),
    Product(3, "Tablet", 0, 399)
  ]

  /** The body of a check reply. `available` is true exactly for `Reserved`. */
  datatype Body =
    | NotFound(error: string)
    | Insufficient(error: string, availableStock: int)
    | Reserved(product: string, reservedQuantity: int, remainingStock: int)

  datatype Reply = Reply(status: int, body: Body)

  /** `inventory.find(p => p.productId === productId)`: the position of the
      first product whose numeric id strictly equals the requested one. */
  function FindProduct(items: seq<Product>, productId: Scalar): (r: Option<nat>)
    ensures r.Some? ==> r.value < |items| && productId == Num(items[r.value].productId)
    ensures r.Some? ==> forall j :: 0 <= j < r.value ==> productId != Num(items[j].productId)
    ensures r.None? ==> forall j :: 0 <= j < |items| ==> productId != Num(items[j].productId)
  {
    if |items| == 0 then None
    else if productId == Num(items[0].productId) then Some(0)
    else match FindProduct(items[1..], productId)
      case None => None
      case Some(i) => Some(i + 1)
  }

  /** The reply to one check-and-reserve request and the table after it. */
  datatype Checked = Checked(reply: Reply, items: seq<Product>)

  /** `POST /inventory/check` as a transition of the table: unknown product
      gives 404, too little stock gives 400 with the current stock, otherwise
      the product's stock goes down by `quantity` and the reply carries the
      stock that remains. */
  function Reserve(items: seq<Product>, productId: Scalar, quantity: int): (c: Checked)
    ensures |c.items| == |items|
    ensures c.reply.body.Reserved? <==> c.reply.status == 200
    ensures c.reply.status != 200 ==> c.items == items
  {
    match FindProduct(items, productId)
    case None => Checked(Reply(404, NotFound("Product not found")), items)
    case Some(i) =>
      var p := items[i];
      if p.stock < quantity then
        Checked(Reply(400, Insufficient("Insufficient stock", p.stock)), items)
      else
        var p' := p.(stock := p.stock - quantity);
        Checked(Reply(200, Reserved(p.name, quantity, p'.stock)), items[i := p'])
  }

  /** Every product's stock is non-negative. */
  ghost predicate StockNonNegative(items: seq<Product>) {
    forall j :: 0 <= j < |items| ==> items[j].stock >= 0
  }

  /** The three outcomes, stated from the table: an unknown product gives 404
      and no change; stock below the quantity gives 400 carrying the current
      stock and no change; otherwise exactly the matched product loses
      `quantity` units and the reply reports the new stock. */
  lemma ReserveOutcomes(items: seq<Product>, productId: Scalar, quantity: int)
    ensures (forall j :: 0 <= j < |items| ==> productId != Num(items[j].productId)) ==>
      Reserve(items, productId, quantity) == Checked(Reply(404, NotFound("Product not found")), items)
    ensures forall i | 0 <= i < |items| && productId == Num(items[i].productId)
                       && (forall j :: 0 <= j < i ==> productId != Num(items[j].productId)) ::
      var c := Reserve(items, productId, quantity);
      && (items[i].stock < quantity ==>
            c == Checked(Reply(400, Insufficient("Insufficient stock", items[i].stock)), items))
      && (items[i].stock >= quantity ==>
            && c.reply == Reply(200, Reserved(items[i].name, quantity, items[i].stock - quantity))
            && c.items[i] == items[i].(stock := items[i].stock - quantity)
            && forall j :: 0 <= j < |items| && j != i ==> c.items[j] == items[j])
  {
    forall i | 0 <= i < |items| && productId == Num(items[i].productId)
               && (forall j :: 0 <= j < i ==> productId != Num(items[j].productId))
      ensures FindProduct(items, productId) == Some(i)
    {
    }
  }

  /** A table with no negative stock keeps none, whatever integer quantity is
      requested: either nothing changes, or `quantity <= stock` holds before
      the subtraction. */
  lemma ReserveKeepsStockNonNegative(items: seq<Product>, productId: Scalar, quantity: int)
    requires StockNonNegative(items)
    ensures StockNonNegative(Reserve(items, productId, quantity).items)
  {
  }

  /** The endpoint is not idempotent: repeating a successful request with a
      positive quantity takes the stock down a second time (or is refused). */
  lemma ReserveNotIdempotent(items: seq<Product>, productId: Scalar, quantity: int)
    requires quantity > 0
    requires Reserve(items, productId, quantity).reply.status == 200
    ensures var once := Reserve(items, productId, quantity).items;
            var twice := Reserve(once, productId, quantity);
            twice.items != once || twice.reply.status != 200
  {
    var i := FindProduct(items, productId).value;
    var once := Reserve(items, productId, quantity).items;
    assert once == items[i := items[i].(stock := items[i].stock - quantity)];
    FindProductSameIds(items, once, productId);
    var twice := Reserve(once, productId, quantity);
    if twice.reply.status == 200 {
      assert twice.items[i].stock == once[i].stock - quantity;
    }
  }

  /** The lookup reads only the ids: two tables with the same ids in the
      same order find the same position. */
  lemma FindProductSameIds(a: seq<Product>, b: seq<Product>, productId: Scalar)
    requires |a| == |b| && forall j :: 0 <= j < |a| ==> a[j].productId == b[j].productId
    ensures FindProduct(a, productId) == FindProduct(b, productId)
  {
    var ra := FindProduct(a, productId);
    var rb := FindProduct(b, productId);
    assert ra.Some? ==> productId == Num(b[ra.value].productId);
    assert rb.Some? ==> productId == Num(a[rb.value].productId);
  }

  /** On a table without negative stock, a negative quantity passes the stock
      check and raises the stock. */
  lemma NegativeQuantityRaisesStock(items: seq<Product>, productId: Scalar, quantity: int)
    requires StockNonNegative(items)
    requires quantity < 0
    requires FindProduct(items, productId).Some?
    ensures var i := FindProduct(items, productId).value;
            var c := Reserve(items, productId, quantity);
            c.reply.status == 200 && c.items[i].stock > items[i].stock
  {
  }

  /** With the seed table: 3 laptops leave 7; one tablet (stock 0) is refused
      with 400 and no change. */
  lemma SeedReservations()
    ensures Reserve(SeedInventory, Num(1), 3) ==
      Checked(Reply(200, Reserved("Laptop", 3, 7)), SeedInventory[0 := Product(1, "Laptop", 7, 999)])
    ensures Reserve(SeedInventory, Num(3), 1) ==
      Checked(Reply(400, Insufficient("Insufficient stock", 0)), SeedInventory)
  {
  }

  /** The running service: its table is a field that the handler updates in place. */
  class Inventory {
    var items: seq<Product>

    constructor ()
      ensures items == SeedInventory
    {
      items := SeedInventory;
    }

    /** `POST /inventory/check`: look the product up, refuse or decrement its
        stock in place (`product.stock -= quantity`). */
    method CheckAndReserve(productId: Scalar, quantity: int) returns (reply: Reply)
      modifies this
      ensures Checked(reply, items) == Reserve(old(items), productId, quantity)
    {
      var found := FindProduct(items, productId);
      if found.None? {
        return Reply(404, NotFound("Product not found"));
      }
      var i := found.value;
      var product := items[i];
      if product.stock < quantity {
        return Reply(400, Insufficient("Insufficient stock", product.stock));
      }
      product := product.(stock := product.stock - quantity);
      items := items[i := product];
      reply := Reply(200, Reserved(product.name, quantity, product.stock));
    }

    /** `GET /inventory`: the table and its length. */
    function Listing(): (r: (seq<Product>, nat))
      reads this
      ensures r.1 == |r.0| && r.0 == items
    {
      (items, |items|)
    }
  }
}
