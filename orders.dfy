/** POST /api/orders (reserve an item by creating a pending order) and
    GET /api/orders (the caller's purchases or sales). */
module Orders {
  import opened Api
  import opened SharedTypes
  import opened Rows
  import opened OrderNo
  import opened Db
  import Auth

  /** The JSON body; a field the client left out is None. */
  datatype OrderBody = OrderBody(
    itemId: Option<string>,
    deliveryType: Option<string>,
    address: Option<string>,
    contactPhone: Option<string>,
    remark: Option<string>)

  /** A body that passed `createOrderSchema`. The remark is accepted but
      never stored. */
  datatype OrderRequest = OrderRequest(itemId: ItemId, deliveryType: DeliveryType, address: Option<string>, contactPhone: string)

  /** `createOrderSchema`: an item id, a delivery type of the enum and a
      contact phone of at least 11 characters. */
  function ParseOrderBody(b: OrderBody): (r: Result<OrderRequest>)
    ensures r.Ok? <==>
      && b.itemId.Some? && b.deliveryType.Some? && ParseDeliveryType(b.deliveryType.value).Some?
      && b.contactPhone.Some? && |b.contactPhone.value| >= 11
    ensures r.Err? ==> r.error == Validation
    ensures r.Ok? ==>
      && r.value.itemId == b.itemId.value && r.value.address == b.address
      && r.value.contactPhone == b.contactPhone.value
      && DeliveryTypeName(r.value.deliveryType) == b.deliveryType.value
  {
    if b.itemId.None? || b.deliveryType.None? || b.contactPhone.None? then Err(Validation)
    else match ParseDeliveryType(b.deliveryType.value)
      case None => Err(Validation)
      case Some(dt) =>
        if |b.contactPhone.value| < 11 then Err(Validation)
        else Ok(OrderRequest(b.itemId.value, dt, b.address, b.contactPhone.value))
  }

  /** The two tables the order transaction writes. */
  datatype Tables = Tables(items: map<ItemId, Item>, orders: seq<Order>)

  /** The tables after a create-order request and the response. */
  datatype Placement = Placement(tables: Tables, result: Result<Order>)

  /** There is at most one live (not cancelled) order per item, and the
      item of a live order exists and is no longer available. */
  ghost predicate ReservationInvariant(t: Tables)
  {
    && (forall i :: 0 <= i < |t.orders| && t.orders[i].status != Cancelled ==>
          t.orders[i].itemId in t.items && t.items[t.orders[i].itemId].status != Available)
    && (forall i, j :: 0 <= i < j < |t.orders| && t.orders[i].itemId == t.orders[j].itemId ==>
          t.orders[i].status == Cancelled || t.orders[j].status == Cancelled)
  }

  /** POST /api/orders on tables `t`. `caller` is the authenticated user id,
      `orderId` and `now` are what the store assigns to the new row, `clock`
      and `random` feed the order number, and `commits` says whether the
      store accepted the transaction. */
  function PlaceOrder(
    t: Tables, users: map<UserId, User>, caller: Option<UserId>, body: OrderBody,
    orderId: OrderId, clock: DateTime, random: real, now: Timestamp, commits: bool): (p: Placement)
    requires 0.0 <= random < 1.0
    // a rejected request changes nothing
    ensures p.result.Err? ==> p.tables == t
    // the responses, in the order the handler checks them
    ensures p.result == Err(Unauthorized) <==> caller.None? || caller.value !in users
    ensures p.result == Err(Validation) <==>
      caller.Some? && caller.value in users && ParseOrderBody(body).Err?
    ensures p.result == Err(NotFound) <==>
      caller.Some? && caller.value in users && ParseOrderBody(body).Ok?
      && ParseOrderBody(body).value.itemId !in t.items
    ensures p.result == Err(BadRequest(ItemUnavailable)) <==>
      caller.Some? && caller.value in users && ParseOrderBody(body).Ok?
      && ParseOrderBody(body).value.itemId in t.items
      && t.items[ParseOrderBody(body).value.itemId].status != Available
    ensures p.result == Err(BadRequest(OwnItem)) <==>
      caller.Some? && caller.value in users && ParseOrderBody(body).Ok?
      && ParseOrderBody(body).value.itemId in t.items
      && t.items[ParseOrderBody(body).value.itemId].status == Available
      && t.items[ParseOrderBody(body).value.itemId].sellerId == caller.value
    ensures p.result == Err(Internal) <==>
      caller.Some? && caller.value in users && ParseOrderBody(body).Ok?
      && ParseOrderBody(body).value.itemId in t.items
      && t.items[ParseOrderBody(body).value.itemId].status == Available
      && t.items[ParseOrderBody(body).value.itemId].sellerId != caller.value
      && !commits
    // a successful request flips exactly that item to sold and appends one
    // pending order for the item's price
    ensures p.result.Ok? ==>
      var req := ParseOrderBody(body).value;
      var item := t.items[req.itemId];
      var o := p.result.value;
      && req.itemId in t.items
      && p.tables.items == t.items[req.itemId := item.(status := Sold)]
      && p.tables.orders == t.orders + [o]
      && o.status == Pending && o.orderType == Purchase
      && o.itemId == req.itemId && o.amount == item.price
      && o.buyerId == caller.value && o.sellerId == item.sellerId
      && o.deliveryType == req.deliveryType && o.address == req.address
      && o.contactPhone == req.contactPhone
      && o.orderNo == GenerateOrderNo(clock, random) && o.id == orderId && o.createdAt == now
    // the item update and the order insert happen together or not at all
    ensures (p.tables.items == t.items) <==> (p.tables.orders == t.orders)
  {
    if caller.None? || caller.value !in users then Placement(t, Err(Unauthorized))
    else match ParseOrderBody(body)
      case Err(e) => Placement(t, Err(e))
      case Ok(req) =>
        if req.itemId !in t.items then Placement(t, Err(NotFound))
        else
          var item := t.items[req.itemId];
          if item.status != Available then Placement(t, Err(BadRequest(ItemUnavailable)))
          else if item.sellerId == caller.value then Placement(t, Err(BadRequest(OwnItem)))
          else if !commits then Placement(t, Err(Internal))
          else
            var o := Order(orderId, GenerateOrderNo(clock, random), req.itemId, caller.value,
                           item.sellerId, Purchase, item.price, Pending, req.deliveryType,
                           req.address, req.contactPhone, now);
            var items' := t.items[req.itemId := item.(status := Sold)];
            assert items'[req.itemId] != t.items[req.itemId];
            assert |t.orders + [o]| != |t.orders|;
            Placement(Tables(items', t.orders + [o]), Ok(o))
  }

  /** Once an order for an item has been created, a later request for the
      same item is refused as unavailable and changes nothing. */
  lemma SecondCreateRejected(
    t: Tables, users: map<UserId, User>, caller: Option<UserId>, body: OrderBody,
    orderId: OrderId, clock: DateTime, random: real, now: Timestamp, commits: bool,
    caller2: Option<UserId>, body2: OrderBody,
    orderId2: OrderId, clock2: DateTime, random2: real, now2: Timestamp, commits2: bool)
    requires 0.0 <= random < 1.0 && 0.0 <= random2 < 1.0
    requires PlaceOrder(t, users, caller, body, orderId, clock, random, now, commits).result.Ok?
    requires caller2.Some? && caller2.value in users
    requires ParseOrderBody(body2).Ok? && ParseOrderBody(body2).value.itemId == ParseOrderBody(body).value.itemId
    ensures var t' := PlaceOrder(t, users, caller, body, orderId, clock, random, now, commits).tables;
      var p2 := PlaceOrder(t', users, caller2, body2, orderId2, clock2, random2, now2, commits2);
      p2.result == Err(BadRequest(ItemUnavailable)) && p2.tables == t'
  {
  }

  /** Creating an order keeps at most one live order per item. */
  lemma PlaceOrderKeepsReservations(
    t: Tables, users: map<UserId, User>, caller: Option<UserId>, body: OrderBody,
    orderId: OrderId, clock: DateTime, random: real, now: Timestamp, commits: bool)
    requires 0.0 <= random < 1.0
    requires ReservationInvariant(t)
    ensures ReservationInvariant(PlaceOrder(t, users, caller, body, orderId, clock, random, now, commits).tables)
  {
    var p := PlaceOrder(t, users, caller, body, orderId, clock, random, now, commits);
    if p.result.Ok? {
      var x := ParseOrderBody(body).value.itemId;
      var n := |t.orders|;
      var orders := p.tables.orders;
      forall i | 0 <= i < n && orders[i].itemId == x
        ensures orders[i].status == Cancelled
      {
        assert orders[i] == t.orders[i];
      }
    }
  }

  /** POST /api/orders against the store. The item update and the order
      insert run in one transaction: when the store does not commit, neither
      write is applied. */
  method CreateOrder(
    db: Database, authorization: Option<string>, verify: string -> Option<UserId>, body: OrderBody,
    orderId: OrderId, clock: DateTime, random: real, now: Timestamp, commits: bool)
    returns (r: Result<Order>)
    requires 0.0 <= random < 1.0
    modifies db`items, db`orders
    ensures var p := PlaceOrder(Tables(old(db.items), old(db.orders)), db.users,
                                Auth.Caller(Auth.ReplacedToken(authorization), verify),
                                body, orderId, clock, random, now, commits);
      r == p.result && db.items == p.tables.items && db.orders == p.tables.orders
  {
    var userId := Auth.Caller(Auth.ReplacedToken(authorization), verify);
    if userId.None? || userId.value !in db.users {
      return Err(Unauthorized);
    }
    var user := db.users[userId.value];
    var parsed := ParseOrderBody(body);
    if parsed.Err? {
      return Err(parsed.error);
    }
    var data := parsed.value;
    if data.itemId !in db.items {
      return Err(NotFound);
    }
    var item := db.items[data.itemId];
    if item.status != Available {
      return Err(BadRequest(ItemUnavailable));
    }
    if item.sellerId == userId.value {
      return Err(BadRequest(OwnItem));
    }
    if !commits {
      return Err(Internal);
    }
    // the transaction: both writes, committed together
    db.items := db.items[data.itemId := item.(status := Sold)];
    var order := Order(orderId, GenerateOrderNo(clock, random), data.itemId, userId.value,
                       item.sellerId, Purchase, item.price, Pending, data.deliveryType,
                       data.address, data.contactPhone, now);
    db.orders := db.orders + [order];
    r := Ok(order);
  }

  // ----- GET /api/orders -----

  datatype Party = AsSeller | AsBuyer

  /** The `where` of the order list: which side of the order the caller is
      on, and the status to match, if any. */
  datatype OrderWhere = OrderWhere(party: Party, user: UserId, status: Option<string>)

  /** `type` defaults to 'buy'; only 'sell' selects the seller side. A
      `status` filter applies when it is given and is not 'all'. */
  function OrderWhereOf(user: UserId, typeParam: Option<string>, statusParam: Option<string>): (w: OrderWhere)
    ensures w.user == user
    ensures w.party == AsSeller <==> typeParam == Some("sell")
    ensures w.status.Some? <==> statusParam.Some? && statusParam.value != "" && statusParam.value != "all"
    ensures w.status.Some? ==> w.status == statusParam
  {
    var kind := if typeParam.None? || typeParam.value == "" then "buy" else typeParam.value;
    var party := if kind == "sell" then AsSeller else AsBuyer;
    var status := if statusParam.Some? && statusParam.value != "" && statusParam.value != "all"
                  then statusParam else None;
    OrderWhere(party, user, status)
  }

  predicate OrderMatches(w: OrderWhere, o: Order)
  {
    && (if w.party == AsSeller then o.sellerId == w.user else o.buyerId == w.user)
    && (w.status.Some? ==> OrderStatusName(o.status) == w.status.value)
  }

  function OrderCreated(o: Order): real { o.createdAt as real }

  /** GET /api/orders: the caller's matching orders, newest first. */
  function ListOrders(
    orders: seq<Order>, users: map<UserId, User>, caller: Option<UserId>,
    typeParam: Option<string>, statusParam: Option<string>): (r: Result<seq<Order>>)
    ensures r.Err? <==> caller.None? || caller.value !in users
    ensures r.Err? ==> r.error == Unauthorized
    ensures r.Ok? ==> SortedBy(r.value, Desc(OrderCreated))
    ensures r.Ok? ==> multiset(r.value) == multiset(Filter(orders, o => OrderMatches(OrderWhereOf(caller.value, typeParam, statusParam), o)))
  {
    if caller.None? || caller.value !in users then Err(Unauthorized)
    else
      var w := OrderWhereOf(caller.value, typeParam, statusParam);
      Ok(SortBy(Filter(orders, o => OrderMatches(w, o)), Desc(OrderCreated)))
  }

  /** The list holds exactly the caller's orders on the chosen side with the
      chosen status: the seller side for type 'sell', the buyer side for
      anything else. */
  lemma ListOrdersSelects(
    orders: seq<Order>, users: map<UserId, User>, caller: Option<UserId>,
    typeParam: Option<string>, statusParam: Option<string>, o: Order)
    requires ListOrders(orders, users, caller, typeParam, statusParam).Ok?
    ensures var listed := ListOrders(orders, users, caller, typeParam, statusParam).value;
      o in listed <==>
        && o in orders
        && (typeParam == Some("sell") ==> o.sellerId == caller.value)
        && (typeParam != Some("sell") ==> o.buyerId == caller.value)
        && (statusParam.Some? && statusParam.value != "" && statusParam.value != "all" ==>
              OrderStatusName(o.status) == statusParam.value)
  {
    var w := OrderWhereOf(caller.value, typeParam, statusParam);
    var matching := Filter(orders, o => OrderMatches(w, o));
    InMultiset(o, SortBy(matching, Desc(OrderCreated)), matching);
  }

  /** Newest first: a listed order is never older than one after it. */
  lemma ListOrdersNewestFirst(
    orders: seq<Order>, users: map<UserId, User>, caller: Option<UserId>,
    typeParam: Option<string>, statusParam: Option<string>, i: nat, j: nat)
    requires ListOrders(orders, users, caller, typeParam, statusParam).Ok?
    requires i < j < |ListOrders(orders, users, caller, typeParam, statusParam).value|
    ensures var listed := ListOrders(orders, users, caller, typeParam, statusParam).value;
      listed[i].createdAt >= listed[j].createdAt
  {
    var listed := ListOrders(orders, users, caller, typeParam, statusParam).value;
    assert Desc(OrderCreated)(listed[i]) <= Desc(OrderCreated)(listed[j]);
  }
}
