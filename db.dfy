/** The relational store behind the handlers, as one object whose tables
    the handlers read and write. */
module Db {
  import opened Api
  import opened SharedTypes

  datatype MessageType = Text | Image

  datatype Message = Message(
    id: string,
    senderId: UserId,
    receiverId: UserId,
    content: string,
    kind: MessageType,
    isRead: bool,
    createdAt: Timestamp)

  /** The tables: users and categories are only read by the handlers
      modelled here; items, orders and messages are written. A table keyed
      by id is a map, a table scanned in order a sequence. */
  class Database {
    var users: map<UserId, User>
    var categories: set<CategoryId>
    var items: map<ItemId, Item>
    var orders: seq<Order>
    var messages: seq<Message>

    constructor (users: map<UserId, User>, categories: set<CategoryId>)
      ensures this.users == users && this.categories == categories
      ensures items == map[] && orders == [] && messages == []
    {
      this.users := users;
      this.categories := categories;
      items := map[];
      orders := [];
      messages := [];
    }
  }
}
