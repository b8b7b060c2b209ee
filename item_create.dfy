/** POST /api/items/create: publish a listing for the caller's school. */
module ItemCreate {
  import opened Api
  import opened SharedTypes
  import opened Db
  import Auth
  import Orders
  import ItemList

  /** The JSON body; a field the client left out is None. */
  datatype ItemBody = ItemBody(
    title: Option<string>,
    description: Option<string>,
    price: Option<real>,
    originalPrice: Option<real>,
    images: Option<seq<string>>,
    condition: Option<string>,
    categoryId: Option<string>,
    location: Option<string>,
    itemType: Option<string>)

  /** A body that passed `createItemSchema`. */
  datatype Listing = Listing(
    title: string,
    description: string,
    price: real,
    originalPrice: Option<real>,
    images: seq<string>,
    condition: ItemCondition,
    categoryId: CategoryId,
    location: Option<string>,
    itemType: ItemType)

  /** `createItemSchema`: a title of 2 to 50 characters, a description of 10
      to 2000, a price of at least 0.01, 1 to 9 image URLs, a condition of
      the enum, a category id, and a type that defaults to sale. `isUrl`
      stands for the URL check of each image. */
  function ValidateItem(b: ItemBody, isUrl: string -> bool): (r: Result<Listing>)
    ensures r.Ok? <==>
      && b.title.Some? && 2 <= |b.title.value| <= 50
      && b.description.Some? && 10 <= |b.description.value| <= 2000
      && b.price.Some? && b.price.value >= 0.01
      && b.images.Some? && 1 <= |b.images.value| <= 9
      && (forall i :: 0 <= i < |b.images.value| ==> isUrl(b.images.value[i]))
      && b.condition.Some? && ParseCondition(b.condition.value).Some?
      && b.categoryId.Some?
      && (b.itemType.None? || ParseItemType(b.itemType.value).Some?)
    ensures r.Err? ==> r.error == Validation
    ensures r.Ok? ==>
      var l := r.value;
      && l.title == b.title.value && l.description == b.description.value
      && l.price == b.price.value && l.originalPrice == b.originalPrice
      && l.images == b.images.value && ConditionName(l.condition) == b.condition.value
      && l.categoryId == b.categoryId.value && l.location == b.location
      && l.itemType == (if b.itemType.None? then Sale else ParseItemType(b.itemType.value).value)
  {
    if b.title.None? || |b.title.value| < 2 || |b.title.value| > 50 then Err(Validation)
    else if b.description.None? || |b.description.value| < 10 || |b.description.value| > 2000 then Err(Validation)
    else if b.price.None? || b.price.value < 0.01 then Err(Validation)
    else if b.images.None? || |b.images.value| < 1 || |b.images.value| > 9 then Err(Validation)
    else if exists i :: 0 <= i < |b.images.value| && !isUrl(b.images.value[i]) then Err(Validation)
    else if b.condition.None? || ParseCondition(b.condition.value).None? then Err(Validation)
    else if b.categoryId.None? then Err(Validation)
    else if b.itemType.Some? && ParseItemType(b.itemType.value).None? then Err(Validation)
    else
      Ok(Listing(
        b.title.value, b.description.value, b.price.value, b.originalPrice, b.images.value,
        ParseCondition(b.condition.value).value, b.categoryId.value, b.location,
        if b.itemType.None? then Sale else ParseItemType(b.itemType.value).value))
  }

  /** `user?.schoolId`, where an empty school id counts as missing. */
  function SchoolOf(users: map<UserId, User>, id: UserId): (r: Option<SchoolId>)
    ensures r.Some? <==> id in users && users[id].schoolId.Some? && users[id].schoolId.value != ""
    ensures r.Some? ==> r == users[id].schoolId
  {
    if id in users && users[id].schoolId.Some? && users[id].schoolId.value != "" then users[id].schoolId
    else None
  }

  /** POST /api/items/create on the item table. `caller` is the user id of
      the bearer token, `newId` and `now` are what the store assigns to the
      row, and `commits` whether the insert succeeds; an insert under an id
      already taken fails like any other store error. The school and the
      category are checked after validation, in that order. */
  function PublishItem(
    items: map<ItemId, Item>, users: map<UserId, User>, categories: set<CategoryId>,
    caller: Option<UserId>, body: ItemBody, isUrl: string -> bool,
    newId: ItemId, now: Timestamp, commits: bool): (r: Result<Item>)
    ensures r == Err(Unauthorized) <==> caller.None?
    ensures r == Err(Validation) <==> caller.Some? && ValidateItem(body, isUrl).Err?
    ensures r == Err(BadRequest(NoSchool)) <==>
      caller.Some? && ValidateItem(body, isUrl).Ok? && SchoolOf(users, caller.value).None?
    ensures r == Err(BadRequest(UnknownCategory)) <==>
      caller.Some? && ValidateItem(body, isUrl).Ok? && SchoolOf(users, caller.value).Some?
      && ValidateItem(body, isUrl).value.categoryId !in categories
    ensures r == Err(Internal) <==>
      caller.Some? && ValidateItem(body, isUrl).Ok? && SchoolOf(users, caller.value).Some?
      && ValidateItem(body, isUrl).value.categoryId in categories
      && (newId in items || !commits)
    // the new listing: the validated fields, sold by the caller at the
    // caller's school, available and not yet viewed
    ensures r.Ok? ==>
      var l := ValidateItem(body, isUrl).value;
      var x := r.value;
      && newId !in items && x.id == newId && x.createdAt == now
      && x.title == l.title && x.description == l.description && x.price == l.price
      && x.originalPrice == l.originalPrice && x.images == l.images && x.condition == l.condition
      && x.categoryId == l.categoryId && x.categoryId in categories
      && x.location == l.location && x.itemType == l.itemType
      && x.sellerId == caller.value && Some(x.schoolId) == SchoolOf(users, caller.value)
      && x.status == Available && x.views == 0
  {
    if caller.None? then Err(Unauthorized)
    else match ValidateItem(body, isUrl)
      case Err(e) => Err(e)
      case Ok(l) =>
        match SchoolOf(users, caller.value)
        case None => Err(BadRequest(NoSchool))
        case Some(school) =>
          if l.categoryId !in categories then Err(BadRequest(UnknownCategory))
          else if newId in items || !commits then Err(Internal)
          else
            Ok(Item(newId, l.title, l.description, l.price, l.originalPrice, l.images, l.condition,
                    l.categoryId, caller.value, school, l.location, Available, l.itemType, 0, now))
  }

  /** POST /api/items/create against the store: a published listing is
      added under its new id, anything else leaves the table alone. The
      token is read with the `Bearer ` prefix check of this handler. */
  method CreateItem(
    db: Database, authorization: Option<string>, verify: string -> Option<UserId>,
    body: ItemBody, isUrl: string -> bool, newId: ItemId, now: Timestamp, commits: bool)
    returns (r: Result<Item>)
    modifies db`items
    ensures r == PublishItem(old(db.items), db.users, db.categories,
                             Auth.Caller(Auth.BearerToken(authorization), verify), body, isUrl, newId, now, commits)
    ensures db.items == if r.Ok? then old(db.items)[newId := r.value] else old(db.items)
  {
    var userId := Auth.Caller(Auth.BearerToken(authorization), verify);
    if userId.None? {
      return Err(Unauthorized);
    }
    var parsed := ValidateItem(body, isUrl);
    if parsed.Err? {
      return Err(parsed.error);
    }
    var school := SchoolOf(db.users, userId.value);
    if school.None? {
      return Err(BadRequest(NoSchool));
    }
    if parsed.value.categoryId !in db.categories {
      return Err(BadRequest(UnknownCategory));
    }
    if newId in db.items || !commits {
      return Err(Internal);
    }
    var l := parsed.value;
    var item := Item(newId, l.title, l.description, l.price, l.originalPrice, l.images, l.condition,
                     l.categoryId, userId.value, school.value, l.location, Available, l.itemType, 0, now);
    db.items := db.items[newId := item];
    r := Ok(item);
  }

  /** Publishing a listing keeps the order table's reservations intact: the
      new row is under a fresh id, so no order points at it. */
  lemma PublishKeepsReservations(
    items: map<ItemId, Item>, orders: seq<Order>, users: map<UserId, User>, categories: set<CategoryId>,
    caller: Option<UserId>, body: ItemBody, isUrl: string -> bool,
    newId: ItemId, now: Timestamp, commits: bool)
    requires Orders.ReservationInvariant(Orders.Tables(items, orders))
    requires PublishItem(items, users, categories, caller, body, isUrl, newId, now, commits).Ok?
    ensures var x := PublishItem(items, users, categories, caller, body, isUrl, newId, now, commits).value;
      Orders.ReservationInvariant(Orders.Tables(items[newId := x], orders))
  {
    var x := PublishItem(items, users, categories, caller, body, isUrl, newId, now, commits).value;
    var t := Orders.Tables(items[newId := x], orders);
    forall i | 0 <= i < |orders| && orders[i].status != Cancelled
      ensures orders[i].itemId in t.items && t.items[orders[i].itemId].status != Available
    {
      assert orders[i].itemId in items;
      assert orders[i].itemId != newId;
    }
  }

  /** A published listing is on some page of the default listing query
      (available listings, no filters, newest first, 20 per page) over any
      table that holds it. */
  lemma PublishedIsListed(
    items: map<ItemId, Item>, users: map<UserId, User>, categories: set<CategoryId>,
    caller: Option<UserId>, body: ItemBody, isUrl: string -> bool,
    newId: ItemId, now: Timestamp, commits: bool, rows: seq<Item>)
    requires PublishItem(items, users, categories, caller, body, isUrl, newId, now, commits).Ok?
    requires PublishItem(items, users, categories, caller, body, isUrl, newId, now, commits).value in rows
    ensures var x := PublishItem(items, users, categories, caller, body, isUrl, newId, now, commits).value;
      var q := ItemList.ParseItemQuery(ItemList.QueryParams(None, None, None, None, None, None, None, None, None));
      && q.Ok?
      && exists page :: page >= 1 && x in ItemList.QueryPage(rows, q.value.(page := page)).items
  {
    var x := PublishItem(items, users, categories, caller, body, isUrl, newId, now, commits).value;
    var q := ItemList.ParseItemQuery(ItemList.QueryParams(None, None, None, None, None, None, None, None, None)).value;
    assert ItemList.WhereOf(q) == ItemList.ItemWhere(Available, None, None, None, None);
    ItemList.QueryPageCovers(rows, q, x);
  }

  /** In particular, right after `CreateItem` commits, the new listing is on
      some page of the default query over the item table as it then is,
      whatever order the rows are read in. */
  lemma CreatedIsListed(
    items: map<ItemId, Item>, users: map<UserId, User>, categories: set<CategoryId>,
    caller: Option<UserId>, body: ItemBody, isUrl: string -> bool,
    newId: ItemId, now: Timestamp, commits: bool, rows: seq<Item>)
    requires PublishItem(items, users, categories, caller, body, isUrl, newId, now, commits).Ok?
    requires var x := PublishItem(items, users, categories, caller, body, isUrl, newId, now, commits).value;
      forall y :: y in rows <==> y in items[newId := x].Values
    ensures var x := PublishItem(items, users, categories, caller, body, isUrl, newId, now, commits).value;
      var q := ItemList.ParseItemQuery(ItemList.QueryParams(None, None, None, None, None, None, None, None, None));
      && q.Ok?
      && exists page :: page >= 1 && x in ItemList.QueryPage(rows, q.value.(page := page)).items
  {
    var x := PublishItem(items, users, categories, caller, body, isUrl, newId, now, commits).value;
    assert items[newId := x][newId] == x;
    PublishedIsListed(items, users, categories, caller, body, isUrl, newId, now, commits, rows);
  }
}
