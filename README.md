# Campus marketplace backend: handlers over an in-memory store

This project models the domain logic of four route handlers of the campus
marketplace backend (`apps/backend/app/api`). The handlers talk to a
relational store through Prisma. Here the store is one `Db.Database`
object: users and categories, an item table keyed by id, an order table
and a message table. The handlers that write are module-level methods
that take that object and change its fields. Each such method is proved
equal to a pure decision or transition function, and the properties are
proved about those functions.

- **Messages** (`messages.dfy`) covers GET `/api/messages` and POST `/api/messages`.
  - A thread between two users, ascending by time, paged with skip/take.
  - The mark-read update that follows a thread read.
  - The conversation list, built by a loop over the newest-first scan that fills a map keyed by the other party.
  - The send guards and the insert.
- **Orders** (`orders.dfy`, `order_no.dfy`) covers `/api/orders`.
  - The order number: "ORD", 14 timestamp digits and a 4-digit random suffix.
  - The guarded reservation: both writes in one transaction, or neither.
  - The buy/sell list filter.
- **Item listing** (`item_list.dfy`) covers GET `/api/items`: the query schema with its bounds and defaults, the `where` it builds, and the page and total. It is a pure filter, sort and slice over the rows of the item table.
- **Item creation** (`item_create.dfy`) covers POST `/api/items/create`.
  - The `Bearer ` prefix check.
  - The field validator.
  - The order in which the business rules reject a request.
  - The fields of the inserted row.

The shared modules are:

- `api.dfy`: `Option`, `Result` and the failure kinds the handlers answer with.
- `shared_types.dfy`: the string enums and records of `packages/shared-types`.
- `rows.dfy`: `where`, `orderBy`, `skip`/`take` and `count` as functions on sequences.
- `auth.dfy`: the two bearer-token extractors and the caller's identity.
- `db.dfy`: the message record and the store.

Some inputs that the handlers get from outside are parameters of the model:

- `verify` stands for JWT verification of a token.
- `isUrl` stands for zod's URL check.
- `clock` and `random` feed the order number.
- `now` and the new row's id are whatever the store assigns.
- `commits` says whether the store accepts a write.

## Model

| member | source | states |
|---|---|---|
| SharedTypes.ParseCondition | packages/shared-types/src/index.ts:45 | the five condition names parse to their value and nothing else does |
| SharedTypes.ParseItemType | packages/shared-types/src/index.ts:47 | 'sale' and 'rent' parse to their value and nothing else does |
| SharedTypes.ParseDeliveryType | packages/shared-types/src/index.ts:72 | 'delivery' and 'pickup' parse to their value and nothing else does |
| Rows.Filter | apps/backend/app/api/items/route.ts:60 | a `where`: a row is in the result iff it is in the table and matches; every matching row keeps its multiplicity |
| Rows.SortBy | apps/backend/app/api/items/route.ts:63 | an `orderBy`: the result is sorted by the key and is a permutation of the rows |
| Rows.Page | apps/backend/app/api/items/route.ts:61-62 | `skip`/`take`: length `min(take, n - skip)` (0 past the end), and element k is row `skip + k` |
| Auth.BearerToken | apps/backend/app/api/items/create/route.ts:21-26 | a token exists iff the header starts with "Bearer ", and then the header is "Bearer " followed by the token |
| Auth.RemoveFirst | apps/backend/app/api/messages/route.ts:8 | `replace('Bearer ', '')` never makes the header longer; its exact effect is stated by `RemoveFirstAbsent` and `RemoveFirstAt` |
| Auth.RemoveFirstAbsent | apps/backend/app/api/messages/route.ts:8 | JavaScript's `replace` with a string pattern leaves a string without the pattern unchanged |
| Auth.RemoveFirstAt | apps/backend/app/api/messages/route.ts:8 | `replace` cuts out exactly the first occurrence of the pattern |
| Auth.ExtractorsAgree | apps/backend/app/api/orders/route.ts:28-30 | on a header "Bearer t" with t non-empty, the message/order extractor and the item extractor give the same token |
| Auth.ReplacedToken | apps/backend/app/api/messages/route.ts:7-9 | no header gives no token; a token is never empty and never longer than the header; a header "Bearer t" with t non-empty gives t |
| Auth.ReplacedTokenWithoutPrefix | apps/backend/app/api/orders/route.ts:29-30 | a non-empty header without "Bearer " goes whole to the verifier in the message/order routes and is refused by the item routes |
| Auth.ReplacedTokenInside | apps/backend/app/api/messages/route.ts:8-9 | a "Bearer " that is not at the start is cut out of the middle of the header |
| Auth.Caller | apps/backend/app/api/messages/route.ts:9-15 | a caller exists iff the token is non-empty, the verifier accepts it and its user id is non-empty, and it is that user id |
| OrderNo.GenerateOrderNo | apps/backend/app/api/orders/route.ts:16-25 | the number starts with "ORD" and is at most 3 + 14 + the padded suffix's length long; its full format is `OrderNoFormat` |
| OrderNo.Decimal | apps/backend/app/api/orders/route.ts:22 | `toString` of a non-negative integer is a non-empty run of digits |
| OrderNo.RandomSuffix | apps/backend/app/api/orders/route.ts:21 | `Math.floor(random * 10000)` for random in [0, 1) is at most 9999 |
| OrderNo.DecimalRoundTrip | apps/backend/app/api/orders/route.ts:22 | the digits of n denote n |
| OrderNo.PaddedRoundTrip | apps/backend/app/api/orders/route.ts:22-23 | `padStart(w, '0')` of a number below 10^w has exactly w digits and still denotes the number |
| OrderNo.TimestampDigits | apps/backend/app/api/orders/route.ts:17-20 | the first 14 characters of the ISO string without `-:T.` are the zero-padded year, month, day, hour, minute and second |
| OrderNo.Layout | apps/backend/app/api/orders/route.ts:16-25 | "ORD" followed by digit fields of widths 4, 2, 2, 2, 2, 2 and 4 is 21 characters long and reads back as the fields' values |
| OrderNo.OrderNoFormat | apps/backend/app/api/orders/route.ts:16-25 | every order number is 21 characters: "ORD" followed by 18 digits |
| OrderNo.OrderNoRoundTrip | apps/backend/app/api/orders/route.ts:16-25 | reading an order number back gives the instant's year, month, day, hour, minute, second and the random suffix |
| OrderNo.OrderNoCollision | apps/backend/app/api/orders/route.ts:16-25 | two equal order numbers come from the same second and the same suffix |
| Orders.ParseOrderBody | apps/backend/app/api/orders/route.ts:7-13 | the body is accepted iff it has an item id, a delivery type of the enum and a phone of at least 11 characters; the accepted fields are the body's |
| Orders.PlaceOrder | apps/backend/app/api/orders/route.ts:39-89 | each failure happens exactly when the earlier checks pass and its own fails, in this order: unauthorized, validation, not found, unavailable, own item, store error. A rejection changes nothing. A success sets that item, and only that item, to sold, and appends one pending purchase order. The order is for the item's price, from the caller to the seller. The item write and the order write happen together or not at all |
| Orders.SecondCreateRejected | apps/backend/app/api/orders/route.ts:57-66 | after a successful create, a second request for the same item is refused as unavailable and changes nothing |
| Orders.PlaceOrderKeepsReservations | apps/backend/app/api/orders/route.ts:56-82 | creating orders keeps two facts true: each item has at most one live order, and the item of a live order exists and is not available |
| Orders.CreateOrder | apps/backend/app/api/orders/route.ts:39-89 | the handler's early-return chain and transaction leave the store and the response exactly as `PlaceOrder` says |
| Orders.OrderWhereOf | apps/backend/app/api/orders/route.ts:99-112 | the seller side for type 'sell' and the buyer side otherwise; a status filter iff status is given and not 'all' |
| Orders.ListOrders | apps/backend/app/api/orders/route.ts:91-149 | fails iff the caller is not authenticated, and then as unauthorized; a list is sorted newest first and is a permutation of the caller's matching orders, so each is listed exactly once |
| Orders.ListOrdersSelects | apps/backend/app/api/orders/route.ts:99-112 | an order is listed iff it is in the table, on the caller's chosen side, and has the chosen status when one applies |
| Orders.ListOrdersNewestFirst | apps/backend/app/api/orders/route.ts:141 | a listed order is never older than one listed after it |
| Messages.Thread | apps/backend/app/api/messages/route.ts:41-48 | a message is in the thread iff it is in the store and went from the user to the other party or back; the thread is ascending by time and is a permutation of those messages, each appearing exactly once |
| Messages.ThreadPage | apps/backend/app/api/messages/route.ts:41-56 | a page has exactly `min(take, n - skip)` messages of the n-message thread (none past its end), all from the store and between the two users, ascending by time, and element k is thread message `skip + k` |
| Messages.CountUnread | apps/backend/app/api/messages/route.ts:107-113 | the count is at most the number of messages, and it is zero iff no unread message goes from the sender to the receiver |
| Messages.CountUnreadIsCount | apps/backend/app/api/messages/route.ts:107-113 | the unread count is the store's `count` of unread messages from the sender to the receiver, the same `count` model the item listing uses |
| Messages.MarkRead | apps/backend/app/api/messages/route.ts:59-66 | mark-read keeps the number of messages, sets `isRead` on every unread message from the other party to the reader, including those not on the page, and leaves every other message as it was |
| Messages.MarkReadIdempotent | apps/backend/app/api/messages/route.ts:59-66 | marking twice gives the same store as marking once |
| Messages.MarkReadCounts | apps/backend/app/api/messages/route.ts:59-66 | afterwards nothing unread goes from the other party to the reader, and every other pair's unread count is unchanged |
| Messages.DistinctPairs | apps/backend/app/api/messages/route.ts:76 | keeps only rows of the input, never more rows than it, no two with the same (sender, receiver) pair, and none whose pair was already seen |
| Messages.DistinctPairsCover | apps/backend/app/api/messages/route.ts:76 | for every row whose pair was not already seen, the result keeps a row with that pair from that position or earlier |
| Messages.DistinctPairsNewest | apps/backend/app/api/messages/route.ts:75-76 | over a newest-first input, every row's pair keeps a row at least as new as it |
| Messages.DistinctPairsSorted | apps/backend/app/api/messages/route.ts:75-76 | keeping the first row per (sender, receiver) pair preserves newest-first order |
| Messages.ConversationScan | apps/backend/app/api/messages/route.ts:71-83 | exactly the first 50 (or all, if fewer) of `DistinctTouching`, so at most 50 messages, all involving the user and from the store, newest first |
| Messages.DistinctTouching | apps/backend/app/api/messages/route.ts:71-82 | only the store's messages that involve the user, at most one per (sender, receiver) pair, newest first |
| Messages.DistinctTouchingCovers | apps/backend/app/api/messages/route.ts:71-82 | every message of the store that involves the user has its pair kept, by a row at least as new as it |
| Messages.Collect | apps/backend/app/api/messages/route.ts:96-123 | no more entries than scanned messages, each for a party with a user record that is not in the map yet |
| Messages.ConversationList | apps/backend/app/api/messages/route.ts:96-126 | at most 50 entries, each for a party with a user record |
| Messages.MapHoldsStep | apps/backend/app/api/messages/route.ts:115-120 | putting a new party's entry into the contact map and at the end of the list keeps the map holding exactly the list's entries, each under its party's id |
| Messages.VisitMessage | apps/backend/app/api/messages/route.ts:97-121 | one pass of the loop body: a counterpart that is new to the map and has a user record gets its summary at the end of the list and under its id in the map; otherwise nothing changes. The map keeps holding exactly the list's entries |
| Messages.CollectStep | apps/backend/app/api/messages/route.ts:96-123 | one loop step adds an entry exactly when the other party is new and has a user record, and the list so far plus what the rest of the scan adds stays the whole list |
| Messages.CollectConversations | apps/backend/app/api/messages/route.ts:94-126 | the loop that fills the contact map only where the party is absent returns `Collect` from an empty map. Its invariant keeps the map holding exactly the list's entries, under their parties' ids, so the list is the map's values in insertion order |
| Messages.ListConversations | apps/backend/app/api/messages/route.ts:71-127 | the scan followed by the loop returns `ConversationList` of the store |
| Messages.FirstIndex | apps/backend/app/api/messages/route.ts:98 | the position of the first scanned message with a given other party, or the scan's length if there is none |
| Messages.CollectUnique | apps/backend/app/api/messages/route.ts:96-123 | no party has two entries |
| Messages.CollectSummary | apps/backend/app/api/messages/route.ts:96-120 | each entry summarises the first scanned message with its party |
| Messages.CollectOrder | apps/backend/app/api/messages/route.ts:96-126 | entries keep the order in which their parties first occur in the scan |
| Messages.CollectComplete | apps/backend/app/api/messages/route.ts:96-123 | every scanned party that has a user record and is not in the map yet gets an entry |
| Messages.ConversationListShape | apps/backend/app/api/messages/route.ts:115-126 | one entry per contact, in the order the contacts first occur in the scan |
| Messages.ConversationEntry | apps/backend/app/api/messages/route.ts:97-120 | an entry is for the other party of its message: the receiver if the user sent it, otherwise the sender. It has that user's nickname and avatar and the message's content and time. Its unread count is the number of unread messages from that contact to the user across the whole store |
| Messages.ConversationListComplete | apps/backend/app/api/messages/route.ts:105-120 | every scanned contact with a user record has an entry; only contacts without one are omitted |
| Messages.CollectNewest | apps/backend/app/api/messages/route.ts:96-98 | over a newest-first scan, no scanned message with an entry's party is newer than the entry |
| Messages.ConversationIsNewest | apps/backend/app/api/messages/route.ts:96-98 | an entry's time is that of the newest scanned message with its contact |
| Messages.ReadThreadClearsUnread | apps/backend/app/api/messages/route.ts:59-113 | after the thread with a contact is read, that contact's entry counts no unread messages |
| Messages.FetchThread | apps/backend/app/api/messages/route.ts:41-66 | returns the thread page read before the update, and the store becomes its mark-read |
| Messages.PagedThread | apps/backend/app/api/messages/route.ts:41-66 | a negative skip, a negative take (modelled as a refusal), or a mark-read the store refuses (`commits` false), is a store error that changes nothing; otherwise the page is read and the thread marked read |
| Messages.GetMessages | apps/backend/app/api/messages/route.ts:29-133 | unauthorized without a caller. With a non-empty `with`, it returns the thread page (defaults 1 and 20) and the store becomes its mark-read; a negative skip or take, or a refused mark-read write, is a store error that changes nothing. Without `with`, it returns the conversation list and changes nothing |
| Messages.ParseSendBody | apps/backend/app/api/messages/route.ts:19-23 | accepted iff there is a non-empty receiver, content of 1 to 1000 characters and a type of 'text' or 'image' (default text) |
| Messages.ComposeMessage | apps/backend/app/api/messages/route.ts:139-171 | each failure happens exactly when the earlier checks pass and its own fails, in this order: unauthorized, validation, unknown receiver, sending to oneself, store error. The receiver check comes before the self check. The message is from the caller to an existing other user, unread, with 1 to 1000 characters, and it is an image iff the type asked for is 'image' |
| Messages.SendMessage | apps/backend/app/api/messages/route.ts:139-184 | a successful send appends exactly the composed message; anything else leaves the message table unchanged |
| ItemList.NonEmpty | apps/backend/app/api/items/route.ts:25-29 | an empty parameter counts as absent |
| ItemList.ParseListedStatus | apps/backend/app/api/items/route.ts:11 | only 'available', 'sold' and 'rented' are accepted; 'removed' is not |
| ItemList.ParseItemQuery | apps/backend/app/api/items/route.ts:6-37 | valid iff `page >= 1`, `1 <= pageSize <= 50` and every enum parameter is in its enum, otherwise a validation error. Defaults: page 1, pageSize 20, sort by creation time descending. Filters are present iff their parameter is non-empty. A given sortBy or sortOrder is the one the parsed query uses |
| ItemList.ParseSortField | apps/backend/app/api/items/route.ts:14 | 'createdAt', 'price' and 'views' parse to their field, and a parsed field's name is the string given |
| ItemList.SortFieldOf | apps/backend/app/api/items/route.ts:30 | an absent or empty sortBy means createdAt; a given one is parsed through the enum |
| ItemList.SortOrderOf | apps/backend/app/api/items/route.ts:31 | an absent or empty sortOrder means descending; a given one is parsed through the enum |
| ItemList.ParseSortOrder | apps/backend/app/api/items/route.ts:15 | 'asc' and 'desc' parse to their order, and a parsed order's name is the string given |
| ItemList.WhereOf | apps/backend/app/api/items/route.ts:43-49 | the status is the requested one or `available`, never `removed`; the other filters are set exactly when given |
| ItemList.Lower | apps/backend/app/api/items/route.ts:52-53 | case folding keeps the length and folds each character |
| ItemList.KeywordCaseInsensitive | apps/backend/app/api/items/route.ts:50-54 | the keyword filter ignores case: a keyword matches the same listings as its lower-case form |
| ItemList.Ranked | apps/backend/app/api/items/route.ts:59-63 | the ranked listings are sorted by the requested key and direction, are a permutation of the table rows that match the where clause (each as often as the table holds it), and number as many as `count` finds |
| ItemList.QueryPage | apps/backend/app/api/items/route.ts:58-97 | the response echoes page and pageSize, holds at most pageSize items, and its total is the number of ranked matches |
| ItemList.RankOf | apps/backend/app/api/items/route.ts:59-63 | every matching row of the table has a position in the ranking |
| ItemList.ListItems | apps/backend/app/api/items/route.ts:19-97 | fails iff the query is invalid, and then with a validation error; otherwise it answers the parsed query's page |
| ItemList.QueryPageSpec | apps/backend/app/api/items/route.ts:58-97 | the page's length is `min(pageSize, total - skip)` (0 past the end), its items are from the table, match the filter (so are never removed) and are in the requested order, and it is the ranked matches' slice at `(page - 1) * pageSize` |
| ItemList.PageOfIndex | apps/backend/app/api/items/route.ts:61-62 | rank k lies on page `k / pageSize + 1`, whose skip is at most k and within one page of it |
| ItemList.OtherPage | apps/backend/app/api/items/route.ts:58-63 | changing only the page keeps the ranking, so each page is the ranked matches' slice at its offset |
| ItemList.QueryPageCovers | apps/backend/app/api/items/route.ts:59-63 | every matching item is on some page of the query |
| ItemCreate.ValidateItem | apps/backend/app/api/items/create/route.ts:7-17 | valid iff: the title has 2 to 50 characters; the description has 10 to 2000; the price is at least 0.01; there are 1 to 9 URL images; the condition is a known one; there is a category id; and the type is sale or rent (default sale). The accepted fields are the body's |
| ItemCreate.SchoolOf | apps/backend/app/api/items/create/route.ts:64-71 | a school iff the user exists and has a non-empty school id |
| ItemCreate.PublishItem | apps/backend/app/api/items/create/route.ts:37-98 | each failure happens exactly when the earlier checks pass and its own fails, in this order: unauthorized, validation, no school, unknown category, store error. The new item is available with 0 views, sold by the caller at the caller's school, with the validated fields |
| ItemCreate.CreateItem | apps/backend/app/api/items/create/route.ts:37-116 | a published item is added under its new id; any rejection leaves the item table unchanged |
| ItemCreate.PublishKeepsReservations | apps/backend/app/api/items/create/route.ts:83-98 | inserting a new item keeps the order table's reservation facts true |
| ItemCreate.PublishedIsListed | apps/backend/app/api/items/create/route.ts:96 | a published item is on some page of the default item listing over any rows that hold it |
| ItemCreate.CreatedIsListed | apps/backend/app/api/items/create/route.ts:96 | right after the insert, the new item is on some page of the default listing over the item table as it then is, in any row order |

`Messages.ThreadTake` and `Messages.ThreadSkip` are the defaults of
apps/backend/app/api/messages/route.ts:35-36 and the skip of line 49.
Their meaning is carried by the `Messages.GetMessages` row.

## Left out

- JSON parsing and wrong field types: each body field is either absent or of the type the schema expects. `apps/backend/lib/index.ts` is not part of this model, and its `parseBody` is taken to answer a schema failure with the validation error.
- zod's URL check and JWT signature verification are oracles (`isUrl`, `verify`).
- Number coercion: query numbers are integers or absent. NaN and fractional pages are not modelled.
- String lengths are counted in characters, not in the UTF-16 code units zod counts.
- ItemList.Lower: only ASCII letters are folded; the store's case-insensitive match also folds other scripts.
- Prices are exact reals, not floating point.
- The clock: an instant is given as calendar fields, and the epoch-to-calendar conversion is not modelled. Years beyond 9999, which `toISOString` prints with a sign, are excluded.
- Concurrent requests, and the race between two create-order requests that both read the item as available.
- Store failures on the read paths (the `catch` blocks that answer 500) are not modelled. Every write, the mark-read `updateMany` included, carries `commits`.
- Rows.SortBy: rows with equal keys keep table order; the store's order for ties is unspecified.
- Messages.DistinctPairs: Prisma's `distinct` is modelled as keeping the first row of each (sender, receiver) pair in the sorted result, before `take: 50`.
- Messages.GetMessages: a negative `take` is treated as a store error, although Prisma reads a negative take as counting from the end.
- Messages.PagedThread: a negative `take` is answered as an internal error with nothing marked read, whereas the store returns the last |take| messages of the thread and the handler then marks the thread read.
- Orders.ListOrders: a status that names no order status matches nothing here; the store may refuse such a query instead.
- Response shapes: the success envelope, and the joined sender, seller, buyer, item and category summaries, are not modelled.
- The order transitions for pay, ship, confirm and cancel are not in the modelled files.
- The category list cache, the seed script and the environment reader are not part of this model.
