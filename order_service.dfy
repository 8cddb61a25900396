/** The order service of the microservices lab. `POST /orders` calls its
    collaborators strictly in sequence (user validation, inventory
    check-and-reserve, payment), appends an order under the next id, and then
    sends a confirmation notification. Any rejection or transport failure
    stops the flow at that call and replies 400; nothing already done is
    undone.

    The collaborators are modelled by their own modules. Whether each HTTP
    call reaches its service is an input (`Links`), as are the payment draw
    and the clock. */
module OrderService {
  import opened Common
  import UserService
  import InventoryService
  import PaymentService
  import NotificationService

  datatype OrderRequest = OrderRequest(userId: Scalar, productId: Scalar, quantity: int, amount: int)

  datatype Order = Order(id: nat, userId: Scalar, productId: Scalar, quantity: int, amount: int,
                         status: string, createdAt: nat)

  /** Whether each collaborator is reached. */
  datatype Links = Links(user: Link, inventory: Link, payment: Link, notification: Link)

  /** One outgoing HTTP call with the body it carries. */
  datatype Call =
    | ValidateUser(userId: Scalar)
    | CheckInventory(productId: Scalar, quantity: int)
    | ProcessPayment(userId: Scalar, amount: int)
    | SendNotification(userId: Scalar, message: string, kind: string)

  /** `error.response?.data || error.message`: the collaborator's reply body
      when it answered with a non-2xx status, else the transport message. */
  datatype Details =
    | UserRejected(user: UserService.Body)
    | InventoryRejected(inventory: InventoryService.Body)
    | PaymentRejected(payment: PaymentService.Body)
    | Transport(message: string)

  datatype Body = Created(order: Order) | Failed(error: string, details: Details)

  datatype Reply = Reply(status: int, body: Body)

  /** The state of every service the flow touches. The user table is a
      constant and is passed separately. */
  datatype World = World(items: seq<InventoryService.Product>,
                         payments: seq<PaymentService.Payment>, paymentCounter: nat,
                         notifications: seq<NotificationService.Notification>, notificationCounter: nat,
                         orders: seq<Order>, orderCounter: nat)

  /** The reply to one request, the state after it, and the calls it made in order. */
  datatype Outcome = Outcome(reply: Reply, world: World, calls: seq<Call>)

  /** axios resolves for 2xx statuses and throws for every other one. */
  predicate IsSuccess(status: int) {
    200 <= status < 300
  }

  function Reject(details: Details): Reply {
    Reply(400, Failed("Order creation failed", details))
  }

  function ConfirmationText(id: nat): string {
    "Order " + NatToString(id) + " confirmed"
  }

  /** The four calls of a request that gets all the way through, in order. */
  function Plan(req: OrderRequest, id: nat): seq<Call> {
    [ ValidateUser(req.userId), CheckInventory(req.productId, req.quantity),
      ProcessPayment(req.userId, req.amount),
      SendNotification(req.userId, ConfirmationText(id), "order_confirmation") ]
  }

  /** `POST /orders` as a transition of all the services' state. */
  function Fulfil(users: seq<UserService.User>, w: World, req: OrderRequest, links: Links,
                  approved: bool, now: nat): (o: Outcome)
    ensures o.reply.status == 201 || (o.reply.body.Failed? && o.reply == Reject(o.reply.body.details))
    ensures o.reply.body.Created? <==> o.reply.status == 201
    ensures 1 <= |o.calls| <= 4 && o.calls == Plan(req, w.orderCounter)[..|o.calls|]
  {
    var plan := Plan(req, w.orderCounter);
    if links.user.Down? then
      Outcome(Reject(Transport(links.user.message)), w, plan[..1])
    else
      var ur := UserService.Validate(users, req.userId);
      if !IsSuccess(ur.status) then
        Outcome(Reject(UserRejected(ur.body)), w, plan[..1])
      else if links.inventory.Down? then
        Outcome(Reject(Transport(links.inventory.message)), w, plan[..2])
      else
        var ic := InventoryService.Reserve(w.items, req.productId, req.quantity);
        var w1 := w.(items := ic.items);
        if !IsSuccess(ic.reply.status) then
          Outcome(Reject(InventoryRejected(ic.reply.body)), w1, plan[..2])
        else if links.payment.Down? then
          Outcome(Reject(Transport(links.payment.message)), w1, plan[..3])
        else
          var pp := PaymentService.Process(w.payments, w.paymentCounter, req.userId, req.amount,
                                           approved, now);
          var w2 := w1.(payments := pp.payments, paymentCounter := pp.counter);
          if !IsSuccess(pp.reply.status) then
            Outcome(Reject(PaymentRejected(pp.reply.body)), w2, plan[..3])
          else
            var order := Order(w.orderCounter, req.userId, req.productId, req.quantity, req.amount,
                               "confirmed", now);
            var w3 := w2.(orders := w.orders + [order], orderCounter := w.orderCounter + 1);
            if links.notification.Down? then
              Outcome(Reject(Transport(links.notification.message)), w3, plan)
            else
              var ns := NotificationService.Send(w.notifications, w.notificationCounter, req.userId,
                                                 ConfirmationText(order.id), "order_confirmation", now);
              Outcome(Reply(201, Created(order)),
                      w3.(notifications := ns.log, notificationCounter := ns.counter), plan)
  }

  /** The user step passes: the user service is reached and accepts. */
  predicate UserPasses(users: seq<UserService.User>, req: OrderRequest, links: Links) {
    links.user.Up? && IsSuccess(UserService.Validate(users, req.userId).status)
  }

  /** The inventory step passes: the inventory service is reached and reserves. */
  predicate InventoryPasses(w: World, req: OrderRequest, links: Links) {
    links.inventory.Up? && IsSuccess(InventoryService.Reserve(w.items, req.productId, req.quantity).reply.status)
  }

  /** The payment step passes: the payment service is reached and approves. */
  predicate PaymentPasses(links: Links, approved: bool) {
    links.payment.Up? && approved
  }

  /** Calls are strictly sequential: each call after the first is made only
      when the one before it passed, and a flow that stops early replies 400. */
  lemma CallsAreSequential(users: seq<UserService.User>, w: World, req: OrderRequest, links: Links,
                           approved: bool, now: nat)
    ensures var o := Fulfil(users, w, req, links, approved, now);
      && (|o.calls| >= 2 <==> UserPasses(users, req, links))
      && (|o.calls| >= 3 <==> UserPasses(users, req, links) && InventoryPasses(w, req, links))
      && (|o.calls| == 4 <==> UserPasses(users, req, links) && InventoryPasses(w, req, links)
                               && PaymentPasses(links, approved))
      && (|o.calls| < 4 ==> o.reply.status == 400)
  {
  }

  /** A request stopped at the user or inventory step changes nothing at all. */
  lemma EarlyAbortChangesNothing(users: seq<UserService.User>, w: World, req: OrderRequest, links: Links,
                                 approved: bool, now: nat)
    requires !UserPasses(users, req, links) || !InventoryPasses(w, req, links)
    ensures var o := Fulfil(users, w, req, links, approved, now);
            o.world == w && o.reply.status == 400 && |o.calls| <= 2
  {
  }

  /** The rejection details are the rejecting collaborator's own reply body. */
  lemma RejectionCarriesCollaboratorBody(users: seq<UserService.User>, w: World, req: OrderRequest,
                                         links: Links, approved: bool, now: nat)
    ensures var o := Fulfil(users, w, req, links, approved, now);
      && (links.user.Up? && !UserPasses(users, req, links) ==>
            o.reply == Reject(UserRejected(UserService.Validate(users, req.userId).body)))
      && (UserPasses(users, req, links) && links.inventory.Up? && !InventoryPasses(w, req, links) ==>
            o.reply == Reject(InventoryRejected(InventoryService.Reserve(w.items, req.productId, req.quantity).reply.body)))
      && (UserPasses(users, req, links) && InventoryPasses(w, req, links) && links.payment.Up? && !approved ==>
            o.reply == Reject(PaymentRejected(PaymentService.Body.Declined("Payment declined", "CARD_DECLINED"))))
  {
  }

  /** An order is appended exactly when all three collaborators pass; in
      every other case the order list and counter are unchanged. */
  lemma OrderOnlyAfterAllThree(users: seq<UserService.User>, w: World, req: OrderRequest, links: Links,
                               approved: bool, now: nat)
    ensures var o := Fulfil(users, w, req, links, approved, now);
      var passes := UserPasses(users, req, links) && InventoryPasses(w, req, links) && PaymentPasses(links, approved);
      && (!passes ==> o.world.orders == w.orders && o.world.orderCounter == w.orderCounter
                      && o.reply.status == 400)
      && (passes ==> o.world.orders == w.orders + [o.world.orders[|w.orders|]]
                     && o.world.orderCounter == w.orderCounter + 1)
  {
  }

  /** There is no compensation: when the payment is declined after a
      successful reservation, the stock stays reserved, no order is created
      and the payment ledger is unchanged. */
  lemma DeclinedPaymentKeepsReservation(users: seq<UserService.User>, w: World, req: OrderRequest,
                                        links: Links, now: nat)
    requires UserPasses(users, req, links) && InventoryPasses(w, req, links) && links.payment.Up?
    ensures var o := Fulfil(users, w, req, links, false, now);
      var i := InventoryService.FindProduct(w.items, req.productId).value;
      && o.reply.status == 400
      && o.world.items == w.items[i := w.items[i].(stock := w.items[i].stock - req.quantity)]
      && o.world.orders == w.orders && o.world.payments == w.payments
      && o.world.notifications == w.notifications
  {
  }

  /** A request that passes everything replies 201 with the appended order:
      it copies the request's fields under the next id with status
      'confirmed'. On the way the matched product loses the ordered quantity,
      one completed payment for the request's user and amount is recorded
      under the next payment id with transaction id `txn_<now>`, and the
      notification "Order <id> confirmed" of type order_confirmation is
      appended under the next notification id for the request's user, the
      earlier notifications kept. Every new record is stamped `now`. */
  lemma SuccessfulOrder(users: seq<UserService.User>, w: World, req: OrderRequest, links: Links, now: nat)
    requires UserPasses(users, req, links) && InventoryPasses(w, req, links) && PaymentPasses(links, true)
    requires links.notification.Up?
    ensures var o := Fulfil(users, w, req, links, true, now);
      && o.reply.status == 201
      && var i := InventoryService.FindProduct(w.items, req.productId).value;
      && o.world.items == w.items[i := w.items[i].(stock := w.items[i].stock - req.quantity)]
      && o.world.payments == w.payments + [o.world.payments[|w.payments|]]
      && o.world.paymentCounter == w.paymentCounter + 1
      && var p := o.world.payments[|w.payments|];
      && p.id == w.paymentCounter && p.status == "completed"
      && p.userId == req.userId && p.amount == req.amount
      && p.transactionId == "txn_" + NatToString(now) && p.processedAt == now
      && var order := o.reply.body.order;
      && o.world.orders == w.orders + [order] && o.world.orderCounter == w.orderCounter + 1
      && order.id == w.orderCounter && order.status == "confirmed"
      && order.userId == req.userId && order.productId == req.productId
      && order.quantity == req.quantity && order.amount == req.amount
      && order.createdAt == now
      && |o.world.notifications| == |w.notifications| + 1
      && o.world.notifications[..|w.notifications|] == w.notifications
      && o.world.notificationCounter == w.notificationCounter + 1
      && var n := o.world.notifications[|w.notifications|];
      && n.id == w.notificationCounter && n.userId == req.userId
      && n.message == "Order " + NatToString(order.id) + " confirmed"
      && n.kind == "order_confirmation" && n.timestamp == now && n.status == "sent"
  {
  }

  /** The notification call is awaited inside the same try block: when it
      fails, the reply is 400 although the order has already been appended,
      and the notification log is unchanged. */
  lemma NotificationFailureKeepsOrder(users: seq<UserService.User>, w: World, req: OrderRequest,
                                      links: Links, now: nat)
    requires UserPasses(users, req, links) && InventoryPasses(w, req, links) && PaymentPasses(links, true)
    requires links.notification.Down?
    ensures var o := Fulfil(users, w, req, links, true, now);
      && o.reply == Reject(Transport(links.notification.message))
      && |o.world.orders| == |w.orders| + 1 && o.world.orders[..|w.orders|] == w.orders
      && o.world.notifications == w.notifications
  {
    var o := Fulfil(users, w, req, links, true, now);
    assert o.world.orders[..|w.orders|] == w.orders;
  }

  /** The order list invariant: ids are 1, 2, 3, ... in list order (so they
      are distinct and strictly increasing), the counter is the next id, and
      every order is confirmed. */
  ghost predicate OrdersValid(orders: seq<Order>, counter: nat) {
    && counter == |orders| + 1
    && (forall i :: 0 <= i < |orders| ==> orders[i].id == i + 1 && orders[i].status == "confirmed")
  }

  /** Every service's invariant together. */
  ghost predicate WorldValid(w: World) {
    && InventoryService.StockNonNegative(w.items)
    && PaymentService.LedgerValid(w.payments, w.paymentCounter)
    && NotificationService.LogValid(w.notifications, w.notificationCounter)
    && OrdersValid(w.orders, w.orderCounter)
  }

  /** Each request keeps every service's invariant. */
  lemma FulfilKeepsWorldValid(users: seq<UserService.User>, w: World, req: OrderRequest, links: Links,
                              approved: bool, now: nat)
    requires WorldValid(w)
    ensures WorldValid(Fulfil(users, w, req, links, approved, now).world)
  {
    InventoryService.ReserveKeepsStockNonNegative(w.items, req.productId, req.quantity);
    PaymentService.ProcessKeepsLedgerValid(w.payments, w.paymentCounter, req.userId, req.amount, approved, now);
    NotificationService.SendKeepsLogValid(w.notifications, w.notificationCounter, req.userId,
                                          ConfirmationText(w.orderCounter), "order_confirmation", now);
  }

  /** The starting state of the whole system. */
  const Initial: World := World(InventoryService.SeedInventory, [], 1, [], 1, [], 1)

  /** A first order for 3 laptops by user 1, with everything reachable and
      the payment approved, becomes order 1 and leaves 7 laptops. */
  lemma FirstSeedOrder(now: nat)
    ensures var links := Links(Up, Up, Up, Up);
      var o := Fulfil(UserService.Users, Initial, OrderRequest(Num(1), Num(1), 3, 2997), links, true, now);
      && o.reply.status == 201 && o.reply.body.order.id == 1
      && o.world.items[0].stock == 7 && |o.world.orders| == 1
  {
    assert UserService.Validate(UserService.Users, Num(1)).status == 200;
    InventoryService.SeedReservations();
  }

  /** The running service: orders and their counter are fields updated in
      place; the collaborators are objects whose own handlers are called. */
  class OrderDesk {
    var orders: seq<Order>
    var orderIdCounter: nat

    constructor ()
      ensures orders == [] && orderIdCounter == 1
      ensures OrdersValid(orders, orderIdCounter)
    {
      orders := [];
      orderIdCounter := 1;
    }

    /** The state of this service and its stateful collaborators. */
    function Snapshot(inventory: InventoryService.Inventory, ledger: PaymentService.PaymentLedger,
                      notifier: NotificationService.NotificationLog): World
      reads this, inventory, ledger, notifier
    {
      World(inventory.items, ledger.payments, ledger.paymentIdCounter,
            notifier.notifications, notifier.notificationIdCounter, orders, orderIdCounter)
    }

    /** `POST /orders` */
    method CreateOrder(users: seq<UserService.User>, inventory: InventoryService.Inventory,
                       ledger: PaymentService.PaymentLedger, notifier: NotificationService.NotificationLog,
                       req: OrderRequest, links: Links, approved: bool, now: nat)
      returns (reply: Reply, calls: seq<Call>)
      modifies this, inventory, ledger, notifier
      ensures Outcome(reply, Snapshot(inventory, ledger, notifier), calls)
           == Fulfil(users, old(Snapshot(inventory, ledger, notifier)), req, links, approved, now)
    {
      calls := [ValidateUser(req.userId)];
      if links.user.Down? {
        return Reject(Transport(links.user.message)), calls;
      }
      var userReply := UserService.Validate(users, req.userId);
      if !IsSuccess(userReply.status) {
        return Reject(UserRejected(userReply.body)), calls;
      }

      calls := calls + [CheckInventory(req.productId, req.quantity)];
      if links.inventory.Down? {
        return Reject(Transport(links.inventory.message)), calls;
      }
      var inventoryReply := inventory.CheckAndReserve(req.productId, req.quantity);
      if !IsSuccess(inventoryReply.status) {
        return Reject(InventoryRejected(inventoryReply.body)), calls;
      }

      calls := calls + [ProcessPayment(req.userId, req.amount)];
      if links.payment.Down? {
        return Reject(Transport(links.payment.message)), calls;
      }
      var paymentReply := ledger.ProcessPayment(req.userId, req.amount, approved, now);
      if !IsSuccess(paymentReply.status) {
        return Reject(PaymentRejected(paymentReply.body)), calls;
      }

      var order := Order(orderIdCounter, req.userId, req.productId, req.quantity, req.amount,
                         "confirmed", now);
      orderIdCounter := orderIdCounter + 1;
      orders := orders + [order];

      var message := ConfirmationText(order.id);
      calls := calls + [SendNotification(req.userId, message, "order_confirmation")];
      if links.notification.Down? {
        return Reject(Transport(links.notification.message)), calls;
      }
      var _ := notifier.SendNotification(req.userId, message, "order_confirmation", now);
      reply := Reply(201, Created(order));
    }

    /** `GET /orders`: the orders and a count equal to their number. */
    function ListOrders(): (r: (seq<Order>, nat))
      reads this
      ensures r.1 == |r.0| && r.0 == orders
    {
      (orders, |orders|)
    }
  }
}
