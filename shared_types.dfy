/** The records and string enums of `packages/shared-types`: each enum is a
    datatype with the string the store and the API use for each value, and
    a parser from that string. */
module SharedTypes {
  import opened Api

  type UserId = string
  type ItemId = string
  type OrderId = string
  type CategoryId = string
  type SchoolId = string

  /** Milliseconds since the epoch, as the store's `createdAt` columns. */
  type Timestamp = int

  datatype ItemCondition = BrandNew | Ninety | Eighty | Seventy | SixtyOrLess

  function ConditionName(c: ItemCondition): string
  {
    match c
    case BrandNew => "全新"
    case Ninety => "9成新"
    case Eighty => "8成新"
    case Seventy => "7成新"
    case SixtyOrLess => "6成新以下"
  }

  function ParseCondition(name: string): (r: Option<ItemCondition>)
    ensures r.Some? ==> ConditionName(r.value) == name
    ensures forall c :: ConditionName(c) == name ==> r == Some(c)
  {
    if name == "全新" then Some(BrandNew)
    else if name == "9成新" then Some(Ninety)
    else if name == "8成新" then Some(Eighty)
    else if name == "7成新" then Some(Seventy)
    else if name == "6成新以下" then Some(SixtyOrLess)
    else None
  }

  datatype ItemStatus = Available | Sold | Rented | Removed

  function ItemStatusName(s: ItemStatus): string
  {
    match s
    case Available => "available"
    case Sold => "sold"
    case Rented => "rented"
    case Removed => "removed"
  }

  datatype ItemType = Sale | Rent

  function ItemTypeName(t: ItemType): string
  {
    match t
    case Sale => "sale"
    case Rent => "rent"
  }

  /** `z.enum(['sale', 'rent'])`. */
  function ParseItemType(name: string): (r: Option<ItemType>)
    ensures r.Some? ==> ItemTypeName(r.value) == name
    ensures forall t :: ItemTypeName(t) == name ==> r == Some(t)
  {
    if name == "sale" then Some(Sale)
    else if name == "rent" then Some(Rent)
    else None
  }

  datatype OrderType = Purchase | Rental

  datatype OrderStatus = Pending | Paid | Shipping | Completed | Cancelled

  function OrderStatusName(s: OrderStatus): string
  {
    match s
    case Pending => "pending"
    case Paid => "paid"
    case Shipping => "shipping"
    case Completed => "completed"
    case Cancelled => "cancelled"
  }

  datatype DeliveryType = Delivery | Pickup

  function DeliveryTypeName(d: DeliveryType): string
  {
    match d
    case Delivery => "delivery"
    case Pickup => "pickup"
  }

  /** `z.enum(['delivery', 'pickup'])`. */
  function ParseDeliveryType(name: string): (r: Option<DeliveryType>)
    ensures r.Some? ==> DeliveryTypeName(r.value) == name
    ensures forall d :: DeliveryTypeName(d) == name ==> r == Some(d)
  {
    if name == "delivery" then Some(Delivery)
    else if name == "pickup" then Some(Pickup)
    else None
  }

  datatype User = User(id: UserId, nickname: string, avatar: Option<string>, schoolId: Option<SchoolId>)

  /** A listing. Prices are exact rationals; the source's floating-point
      rounding is not modelled. */
  datatype Item = Item(
    id: ItemId,
    title: string,
    description: string,
    price: real,
    originalPrice: Option<real>,
    images: seq<string>,
    condition: ItemCondition,
    categoryId: CategoryId,
    sellerId: UserId,
    schoolId: SchoolId,
    location: Option<string>,
    status: ItemStatus,
    itemType: ItemType,
    views: nat,
    createdAt: Timestamp)

  datatype Order = Order(
    id: OrderId,
    orderNo: string,
    itemId: ItemId,
    buyerId: UserId,
    sellerId: UserId,
    orderType: OrderType,
    amount: real,
    status: OrderStatus,
    deliveryType: DeliveryType,
    address: Option<string>,
    contactPhone: string,
    createdAt: Timestamp)
}
