/** GET /api/messages (a thread with one user, which marks that user's
    messages read, or the list of recent conversations) and POST
    /api/messages (send a message). */
module Messages {
  import opened Api
  import opened SharedTypes
  import opened Rows
  import opened Db
  import Auth

  // ----- the thread with one counterpart -----

  /** Sent from `user` to `other` or from `other` to `user`. */
  predicate Between(m: Message, user: UserId, other: UserId)
  {
    (m.senderId == user && m.receiverId == other) || (m.senderId == other && m.receiverId == user)
  }

  function MessageCreated(m: Message): real { m.createdAt as real }

  /** All messages between the two users, oldest first: exactly the
      messages of the store between them, in ascending time. */
  function Thread(messages: seq<Message>, user: UserId, other: UserId): (r: seq<Message>)
    ensures SortedBy(r, MessageCreated)
    ensures forall m :: m in r <==> m in messages && Between(m, user, other)
    ensures multiset(r) == multiset(Filter(messages, m => Between(m, user, other)))
  {
    var between := Filter(messages, m => Between(m, user, other));
    var sorted := SortBy(between, MessageCreated);
    SameMembers(sorted, between);
    sorted
  }

  /** One page of the thread: at most `take` messages, all between the two
      users, in ascending time; it is the thread's slice at `skip`. */
  function ThreadPage(messages: seq<Message>, user: UserId, other: UserId, skip: nat, take: nat): (r: seq<Message>)
    ensures |r| <= take
    ensures |r| == if skip >= |Thread(messages, user, other)| then 0 else Min(take, |Thread(messages, user, other)| - skip)
    ensures SortedBy(r, MessageCreated)
    ensures forall k :: 0 <= k < |r| ==> r[k] in messages && Between(r[k], user, other)
    ensures forall k :: 0 <= k < |r| ==> skip + k < |Thread(messages, user, other)| && r[k] == Thread(messages, user, other)[skip + k]
  {
    var t := Thread(messages, user, other);
    SortedPage(t, skip, take, MessageCreated);
    Page(t, skip, take)
  }

  // ----- marking the thread read -----

  /** Unread and sent from `from` to `to`. */
  predicate UnreadFrom(m: Message, from: UserId, to: UserId)
  {
    m.senderId == from && m.receiverId == to && !m.isRead
  }

  /** The `where` of that count as a row predicate. */
  function Unread(from: UserId, to: UserId): Message -> bool
  {
    m => UnreadFrom(m, from, to)
  }

  /** `count({ where: { senderId: from, receiverId: to, isRead: false } })`:
      zero exactly when no such message is left. */
  function CountUnread(messages: seq<Message>, from: UserId, to: UserId): (n: nat)
    ensures n <= |messages|
    ensures n == 0 <==> forall k :: 0 <= k < |messages| ==> !UnreadFrom(messages[k], from, to)
  {
    if messages == [] then 0
    else
      assert forall k :: 1 <= k < |messages| ==> messages[k] == messages[1..][k - 1];
      (if UnreadFrom(messages[0], from, to) then 1 else 0) + CountUnread(messages[1..], from, to)
  }

  /** The unread count is the store's `count` over that `where`. */
  lemma {:induction false} CountUnreadIsCount(messages: seq<Message>, from: UserId, to: UserId)
    ensures CountUnread(messages, from, to) == Count(messages, Unread(from, to))
  {
    if messages != [] {
      CountUnreadIsCount(messages[1..], from, to);
    }
  }

  /** `updateMany` of lines 59-66 on one row. */
  function MarkOne(m: Message, reader: UserId, other: UserId): Message
  {
    if UnreadFrom(m, other, reader) then m.(isRead := true) else m
  }

  /** Every unread message from `other` to `reader` becomes read, not only
      those on the page returned, and every other message stays as it was. */
  function MarkRead(messages: seq<Message>, reader: UserId, other: UserId): (r: seq<Message>)
    ensures |r| == |messages|
    ensures forall k :: 0 <= k < |r| && UnreadFrom(messages[k], other, reader) ==> r[k] == messages[k].(isRead := true)
    ensures forall k :: 0 <= k < |r| && !UnreadFrom(messages[k], other, reader) ==> r[k] == messages[k]
  {
    if messages == [] then []
    else
      var rest := MarkRead(messages[1..], reader, other);
      assert forall k :: 1 <= k < |messages| ==> messages[k] == messages[1..][k - 1];
      [MarkOne(messages[0], reader, other)] + rest
  }

  /** Reading a thread twice marks no more than reading it once. */
  lemma {:induction false} MarkReadIdempotent(messages: seq<Message>, reader: UserId, other: UserId)
    ensures MarkRead(MarkRead(messages, reader, other), reader, other) == MarkRead(messages, reader, other)
  {
    if messages != [] {
      MarkReadIdempotent(messages[1..], reader, other);
      var r := MarkRead(messages, reader, other);
      assert r[1..] == MarkRead(messages[1..], reader, other);
    }
  }

  /** After mark-read no unread message from `other` to `reader` is left,
      and every other pair's unread count is unchanged. */
  lemma {:induction false} MarkReadCounts(messages: seq<Message>, reader: UserId, other: UserId, from: UserId, to: UserId)
    ensures CountUnread(MarkRead(messages, reader, other), other, reader) == 0
    ensures (from, to) != (other, reader) ==>
      CountUnread(MarkRead(messages, reader, other), from, to) == CountUnread(messages, from, to)
  {
    if messages != [] {
      MarkReadCounts(messages[1..], reader, other, from, to);
      var r := MarkRead(messages, reader, other);
      assert r[1..] == MarkRead(messages[1..], reader, other);
    }
  }

  // ----- the conversation list -----

  /** Sent or received by `user`. */
  predicate Involves(m: Message, user: UserId)
  {
    m.senderId == user || m.receiverId == user
  }

  /** The other party: the receiver when `user` sent it, else the sender. */
  function Counterpart(m: Message, user: UserId): UserId
  {
    if m.senderId == user then m.receiverId else m.senderId
  }

  /** The pair `distinct: ['senderId', 'receiverId']` compares. */
  function Pair(m: Message): (UserId, UserId) { (m.senderId, m.receiverId) }

  /** `distinct: ['senderId', 'receiverId']`: the first row of each
      (sender, receiver) pair not in `seen`, in row order. */
  function DistinctPairs(s: seq<Message>, seen: set<(UserId, UserId)>): (r: seq<Message>)
    ensures |r| <= |s|
    ensures forall x :: x in r ==> x in s
    ensures forall k :: 0 <= k < |r| ==> Pair(r[k]) !in seen
    ensures forall a, b :: 0 <= a < b < |r| ==> Pair(r[a]) != Pair(r[b])
  {
    if s == [] then []
    else if Pair(s[0]) in seen then DistinctPairs(s[1..], seen)
    else
      var rest := DistinctPairs(s[1..], seen + {Pair(s[0])});
      assert forall k :: 0 <= k < |rest| ==> Pair(rest[k]) != Pair(s[0]);
      [s[0]] + rest
  }

  /** Every row whose pair is not in `seen` is represented by a kept row
      with the same pair at or before it. */
  lemma {:induction false} DistinctPairsCover(s: seq<Message>, seen: set<(UserId, UserId)>, i: nat)
    requires i < |s| && Pair(s[i]) !in seen
    ensures exists j :: 0 <= j <= i && Pair(s[j]) == Pair(s[i]) && s[j] in DistinctPairs(s, seen)
  {
    var p := Pair(s[0]);
    if p == Pair(s[i]) {
      assert s[0] in DistinctPairs(s, seen);
    } else {
      var seen2 := if p in seen then seen else seen + {p};
      if p !in seen {
        assert DistinctPairs(s, seen) == [s[0]] + DistinctPairs(s[1..], seen2);
      }
      DistinctPairsCover(s[1..], seen2, i - 1);
      var j :| 0 <= j <= i - 1 && Pair(s[1..][j]) == Pair(s[1..][i - 1]) && s[1..][j] in DistinctPairs(s[1..], seen2);
      assert s[1..][j] == s[j + 1];
    }
  }

  /** Dropping rows keeps a newest-first order. */
  lemma {:induction false} DistinctPairsSorted(s: seq<Message>, seen: set<(UserId, UserId)>)
    requires SortedBy(s, Desc(MessageCreated))
    ensures SortedBy(DistinctPairs(s, seen), Desc(MessageCreated))
  {
    if s != [] {
      var pair := Pair(s[0]);
      if pair in seen {
        DistinctPairsSorted(s[1..], seen);
      } else {
        var rest := DistinctPairs(s[1..], seen + {pair});
        DistinctPairsSorted(s[1..], seen + {pair});
        var r := [s[0]] + rest;
        forall j | 0 < j < |r| ensures Desc(MessageCreated)(s[0]) <= Desc(MessageCreated)(r[j]) {
          assert r[j] in s[1..];
          var k :| 0 <= k < |s[1..]| && s[1..][k] == r[j];
          assert s[k + 1] == r[j];
        }
        assert SortedBy(r, Desc(MessageCreated));
      }
    }
  }

  const ScanLimit: nat := 50

  /** The `where` of lines 72-74. */
  function Touches(user: UserId): Message -> bool
  {
    m => Involves(m, user)
  }

  /** The messages touching `user`, newest first, one per (sender,
      receiver) pair. */
  function DistinctTouching(messages: seq<Message>, user: UserId): (r: seq<Message>)
    ensures forall k :: 0 <= k < |r| ==> r[k] in messages && Involves(r[k], user)
    ensures forall a, b :: 0 <= a < b < |r| ==> Pair(r[a]) != Pair(r[b])
    ensures SortedBy(r, Desc(MessageCreated))
  {
    var touching := Filter(messages, Touches(user));
    var sorted := SortBy(touching, Desc(MessageCreated));
    var distinct := DistinctPairs(sorted, {});
    ScanMembers(messages, user, touching, sorted, distinct);
    DistinctPairsSorted(sorted, {});
    distinct
  }

  lemma ScanMembers(messages: seq<Message>, user: UserId, touching: seq<Message>, sorted: seq<Message>, distinct: seq<Message>)
    requires touching == Filter(messages, Touches(user))
    requires multiset(sorted) == multiset(touching)
    requires forall x :: x in distinct ==> x in sorted
    ensures forall k :: 0 <= k < |distinct| ==> distinct[k] in messages && Involves(distinct[k], user)
  {
    forall k | 0 <= k < |distinct| ensures distinct[k] in messages && Involves(distinct[k], user) {
      InMultiset(distinct[k], sorted, touching);
    }
  }

  /** Over a newest-first sequence, every row is represented by a kept
      row with the same pair that is at least as new. */
  lemma DistinctPairsNewest(s: seq<Message>, i: nat)
    requires SortedBy(s, Desc(MessageCreated)) && i < |s|
    ensures exists k :: 0 <= k < |DistinctPairs(s, {})| && Pair(DistinctPairs(s, {})[k]) == Pair(s[i]) && DistinctPairs(s, {})[k].createdAt >= s[i].createdAt
  {
    var distinct := DistinctPairs(s, {});
    DistinctPairsCover(s, {}, i);
    var j :| 0 <= j <= i && Pair(s[j]) == Pair(s[i]) && s[j] in distinct;
    assert Desc(MessageCreated)(s[j]) <= Desc(MessageCreated)(s[i]);
    assert MessageCreated(s[i]) <= MessageCreated(s[j]);
    var k :| 0 <= k < |distinct| && distinct[k] == s[j];
  }

  /** Every message touching `user` is represented by a kept message with
      the same sender and receiver that is at least as new. */
  lemma DistinctTouchingCovers(messages: seq<Message>, user: UserId, m: Message)
    requires m in messages && Involves(m, user)
    ensures exists k :: 0 <= k < |DistinctTouching(messages, user)| && Pair(DistinctTouching(messages, user)[k]) == Pair(m) && DistinctTouching(messages, user)[k].createdAt >= m.createdAt
  {
    var sorted := SortBy(Filter(messages, Touches(user)), Desc(MessageCreated));
    TouchingSorted(messages, user, m);
    var i :| 0 <= i < |sorted| && sorted[i] == m;
    DistinctPairsNewest(sorted, i);
    assert DistinctTouching(messages, user) == DistinctPairs(sorted, {});
  }

  lemma TouchingSorted(messages: seq<Message>, user: UserId, m: Message)
    requires m in messages && Involves(m, user)
    ensures m in SortBy(Filter(messages, Touches(user)), Desc(MessageCreated))
  {
    var touching := Filter(messages, Touches(user));
    assert m in touching;
    InMultiset(m, SortBy(touching, Desc(MessageCreated)), touching);
  }

  /** The messages of lines 71-83: the newest 50 of `DistinctTouching`. */
  function ConversationScan(messages: seq<Message>, user: UserId): (r: seq<Message>)
    ensures |r| <= ScanLimit
    ensures r == DistinctTouching(messages, user)[..Min(ScanLimit, |DistinctTouching(messages, user)|)]
    ensures forall k :: 0 <= k < |r| ==> r[k] in messages && Involves(r[k], user)
    ensures SortedBy(r, Desc(MessageCreated))
  {
    var distinct := DistinctTouching(messages, user);
    if |distinct| <= ScanLimit then
      assert distinct[..|distinct|] == distinct; distinct
    else
      SortedPrefix(distinct, ScanLimit, Desc(MessageCreated));
      distinct[..ScanLimit]
  }

  datatype Contact = Contact(id: UserId, nickname: string, avatar: Option<string>)

  datatype Conversation = Conversation(user: Contact, lastMessage: string, unreadCount: nat, createdAt: Timestamp)

  /** The entry a scanned message makes for its counterpart; the unread
      count is over the whole store, not only the scanned messages. */
  function Summary(m: Message, user: UserId, users: map<UserId, User>, store: seq<Message>): Conversation
    requires Counterpart(m, user) in users
  {
    var c := Counterpart(m, user);
    Conversation(Contact(c, users[c].nickname, users[c].avatar), m.content, CountUnread(store, c, user), m.createdAt)
  }

  /** The loop of lines 96-123 from a state in which the contacts in `seen`
      are already in the map: a counterpart is added on its first message
      when its user record exists. No more entries than scanned messages,
      each for a contact with a user record that is not yet in the map. */
  function Collect(scan: seq<Message>, user: UserId, users: map<UserId, User>, store: seq<Message>, seen: set<UserId>): (r: seq<Conversation>)
    ensures |r| <= |scan|
    ensures forall a :: 0 <= a < |r| ==> r[a].user.id in users && r[a].user.id !in seen
  {
    if scan == [] then []
    else
      var c := Counterpart(scan[0], user);
      if c in seen || c !in users then Collect(scan[1..], user, users, store, seen)
      else [Summary(scan[0], user, users, store)] + Collect(scan[1..], user, users, store, seen + {c})
  }

  /** The response of lines 96-126: at most 50 entries, each for a contact
      with a user record. */
  function ConversationList(messages: seq<Message>, users: map<UserId, User>, user: UserId): (r: seq<Conversation>)
    ensures |r| <= ScanLimit
    ensures forall a :: 0 <= a < |r| ==> r[a].user.id in users
  {
    Collect(ConversationScan(messages, user), user, users, messages, {})
  }

  /** One step of the loop: the message at `i` adds an entry exactly when
      its counterpart is new and has a user record; either way the list
      built so far followed by what the rest of the scan adds is the
      whole list. */
  lemma CollectStep(scan: seq<Message>, i: nat, user: UserId, users: map<UserId, User>, store: seq<Message>,
                    seen: set<UserId>, list: seq<Conversation>, total: seq<Conversation>)
    requires i < |scan|
    requires list + Collect(scan[i..], user, users, store, seen) == total
    ensures var c := Counterpart(scan[i], user);
      if c in seen || c !in users then list + Collect(scan[i + 1..], user, users, store, seen) == total
      else (list + [Summary(scan[i], user, users, store)]) + Collect(scan[i + 1..], user, users, store, seen + {c}) == total
  {
    assert scan[i..][0] == scan[i] && scan[i..][1..] == scan[i + 1..];
    var c := Counterpart(scan[i], user);
    if c !in seen && c in users {
      var e := Summary(scan[i], user, users, store);
      var rest := Collect(scan[i + 1..], user, users, store, seen + {c});
      assert Collect(scan[i..], user, users, store, seen) == [e] + rest;
      assert (list + [e]) + rest == list + ([e] + rest);
    }
  }

  /** The contact map holds exactly the entries of the list, each under
      its contact's id. */
  predicate MapHoldsList(contactMap: map<UserId, Conversation>, list: seq<Conversation>)
  {
    && |list| == |contactMap|
    && forall a :: 0 <= a < |list| ==> list[a].user.id in contactMap && contactMap[list[a].user.id] == list[a]
  }

  /** Putting a new contact's entry into the map and at the end of the list
      keeps the two in step. */
  lemma MapHoldsStep(contactMap: map<UserId, Conversation>, list: seq<Conversation>, entry: Conversation)
    requires MapHoldsList(contactMap, list)
    requires entry.user.id !in contactMap
    ensures MapHoldsList(contactMap[entry.user.id := entry], list + [entry])
    ensures contactMap[entry.user.id := entry].Keys == contactMap.Keys + {entry.user.id}
  {
    var m := contactMap[entry.user.id := entry];
    assert m.Keys == contactMap.Keys + {entry.user.id};
    forall a | 0 <= a < |list| ensures list[a].user.id != entry.user.id {
      assert list[a].user.id in contactMap;
    }
  }

  /** The body of the loop of lines 96-123 for one message: its
      counterpart gets an entry, at the end of the list and in the map, only
      when it is not in the map yet and has a user record. */
  method VisitMessage(msg: Message, user: UserId, users: map<UserId, User>, store: seq<Message>,
                      contactMap: map<UserId, Conversation>, list: seq<Conversation>)
    returns (nextMap: map<UserId, Conversation>, nextList: seq<Conversation>)
    requires MapHoldsList(contactMap, list)
    ensures MapHoldsList(nextMap, nextList)
    ensures var c := Counterpart(msg, user);
      if c in contactMap || c !in users then nextMap == contactMap && nextList == list
      else && nextList == list + [Summary(msg, user, users, store)]
           && nextMap == contactMap[c := Summary(msg, user, users, store)]
           && nextMap.Keys == contactMap.Keys + {c}
  {
    nextMap, nextList := contactMap, list;
    var contactId := Counterpart(msg, user);
    if contactId !in contactMap {
      if contactId in users {
        var contact := users[contactId];
        var unreadCount := CountUnread(store, contactId, user);
        var entry := Conversation(Contact(contactId, contact.nickname, contact.avatar), msg.content, unreadCount, msg.createdAt);
        assert entry == Summary(msg, user, users, store);
        MapHoldsStep(contactMap, list, entry);
        nextMap := contactMap[contactId := entry];
        nextList := list + [entry];
      }
    }
  }

  /** The loop of lines 96-123 over the scanned messages: the contact map
      is filled in scan order and only where the contact is absent; its
      values, in insertion order, are the list. */
  method CollectConversations(scan: seq<Message>, user: UserId, users: map<UserId, User>, store: seq<Message>)
    returns (list: seq<Conversation>)
    ensures list == Collect(scan, user, users, store, {})
  {
    var contactMap: map<UserId, Conversation> := map[];
    list := [];
    var i := 0;
    ghost var total := Collect(scan, user, users, store, {});
    assert scan[i..] == scan;
    assert contactMap.Keys == {};
    while i < |scan|
      invariant 0 <= i <= |scan|
      invariant list + Collect(scan[i..], user, users, store, contactMap.Keys) == total
      invariant MapHoldsList(contactMap, list)
    {
      CollectStep(scan, i, user, users, store, contactMap.Keys, list, total);
      contactMap, list := VisitMessage(scan[i], user, users, store, contactMap, list);
      i := i + 1;
    }
    assert scan[i..] == [];
  }

  /** The conversation list against the store: the scan, then the loop. */
  method ListConversations(db: Database, user: UserId) returns (list: seq<Conversation>)
    ensures list == ConversationList(db.messages, db.users, user)
  {
    var scan := ConversationScan(db.messages, user);
    list := CollectConversations(scan, user, db.users, db.messages);
  }

  /** The position of the first scanned message whose counterpart is `c`,
      or `|scan|` when there is none. */
  function FirstIndex(scan: seq<Message>, user: UserId, c: UserId): (k: nat)
    ensures k <= |scan|
    ensures k < |scan| ==> Counterpart(scan[k], user) == c
    ensures forall j :: 0 <= j < k ==> Counterpart(scan[j], user) != c
  {
    if scan == [] then 0
    else if Counterpart(scan[0], user) == c then 0
    else 1 + FirstIndex(scan[1..], user, c)
  }

  /** No contact has two entries. */
  lemma {:induction false} CollectUnique(scan: seq<Message>, user: UserId, users: map<UserId, User>, store: seq<Message>, seen: set<UserId>)
    ensures forall a, b :: 0 <= a < b < |Collect(scan, user, users, store, seen)| ==>
      Collect(scan, user, users, store, seen)[a].user.id != Collect(scan, user, users, store, seen)[b].user.id
  {
    if scan != [] {
      var c := Counterpart(scan[0], user);
      var r := Collect(scan, user, users, store, seen);
      if c in seen || c !in users {
        CollectUnique(scan[1..], user, users, store, seen);
        assert r == Collect(scan[1..], user, users, store, seen);
      } else {
        CollectUnique(scan[1..], user, users, store, seen + {c});
        var rest := Collect(scan[1..], user, users, store, seen + {c});
        assert r == [Summary(scan[0], user, users, store)] + rest;
        assert r[0].user.id == c;
        forall a, b | 0 <= a < b < |r| ensures r[a].user.id != r[b].user.id {
          assert r[b] == rest[b - 1];
          if a > 0 {
            assert r[a] == rest[a - 1];
          }
        }
      }
    }
  }

  /** Entry `a` summarises the first scanned message with its contact. */
  lemma {:induction false} CollectSummary(scan: seq<Message>, user: UserId, users: map<UserId, User>, store: seq<Message>, seen: set<UserId>, a: nat)
    requires a < |Collect(scan, user, users, store, seen)|
    ensures var e := Collect(scan, user, users, store, seen)[a];
      var k := FirstIndex(scan, user, e.user.id);
      k < |scan| && e.user.id in users && e == Summary(scan[k], user, users, store)
  {
    var c := Counterpart(scan[0], user);
    var r := Collect(scan, user, users, store, seen);
    if c in seen || c !in users {
      CollectSummary(scan[1..], user, users, store, seen, a);
      var k := FirstIndex(scan[1..], user, r[a].user.id);
      assert r[a].user.id != c && scan[1..][k] == scan[k + 1];
    } else if a > 0 {
      var rest := Collect(scan[1..], user, users, store, seen + {c});
      assert r[a] == rest[a - 1];
      CollectSummary(scan[1..], user, users, store, seen + {c}, a - 1);
      var k := FirstIndex(scan[1..], user, r[a].user.id);
      assert r[a].user.id != c && scan[1..][k] == scan[k + 1];
    }
  }

  /** The entries keep the order in which the contacts first occur. */
  lemma {:induction false} CollectOrder(scan: seq<Message>, user: UserId, users: map<UserId, User>, store: seq<Message>, seen: set<UserId>)
    ensures forall a, b :: 0 <= a < b < |Collect(scan, user, users, store, seen)| ==>
      FirstIndex(scan, user, Collect(scan, user, users, store, seen)[a].user.id)
        < FirstIndex(scan, user, Collect(scan, user, users, store, seen)[b].user.id)
  {
    if scan != [] {
      var c := Counterpart(scan[0], user);
      var r := Collect(scan, user, users, store, seen);
      if c in seen || c !in users {
        CollectOrder(scan[1..], user, users, store, seen);
        assert r == Collect(scan[1..], user, users, store, seen);
        forall a | 0 <= a < |r| ensures FirstIndex(scan, user, r[a].user.id) == 1 + FirstIndex(scan[1..], user, r[a].user.id) {
          assert r[a].user.id != c;
        }
      } else {
        CollectOrder(scan[1..], user, users, store, seen + {c});
        var rest := Collect(scan[1..], user, users, store, seen + {c});
        assert r == [Summary(scan[0], user, users, store)] + rest;
        assert FirstIndex(scan, user, r[0].user.id) == 0;
        forall a | 0 < a < |r| ensures FirstIndex(scan, user, r[a].user.id) == 1 + FirstIndex(scan[1..], user, rest[a - 1].user.id) {
          assert r[a] == rest[a - 1];
          assert r[a].user.id != c;
        }
      }
    }
  }

  /** A counterpart of a scanned message that has a user record (and is not
      already in the map) gets an entry. */
  lemma {:induction false} CollectComplete(scan: seq<Message>, user: UserId, users: map<UserId, User>, store: seq<Message>, seen: set<UserId>, k: nat)
    requires k < |scan|
    requires Counterpart(scan[k], user) in users && Counterpart(scan[k], user) !in seen
    ensures exists a :: 0 <= a < |Collect(scan, user, users, store, seen)|
                     && Collect(scan, user, users, store, seen)[a].user.id == Counterpart(scan[k], user)
  {
    var c := Counterpart(scan[0], user);
    var r := Collect(scan, user, users, store, seen);
    if c !in seen && c in users {
      if c == Counterpart(scan[k], user) {
        assert r[0].user.id == c;
      } else {
        CollectComplete(scan[1..], user, users, store, seen + {c}, k - 1);
        var rest := Collect(scan[1..], user, users, store, seen + {c});
        var a :| 0 <= a < |rest| && rest[a].user.id == Counterpart(scan[k], user);
        assert r[a + 1] == rest[a];
      }
    } else {
      assert k > 0;
      CollectComplete(scan[1..], user, users, store, seen, k - 1);
    }
  }

  /** The conversation list has one entry per contact, in the order in
      which the contacts first occur in the scan. */
  lemma ConversationListShape(messages: seq<Message>, users: map<UserId, User>, user: UserId)
    ensures var scan := ConversationScan(messages, user);
      var r := ConversationList(messages, users, user);
      && (forall a, b :: 0 <= a < b < |r| ==> r[a].user.id != r[b].user.id)
      && (forall a, b :: 0 <= a < b < |r| ==>
            FirstIndex(scan, user, r[a].user.id) < FirstIndex(scan, user, r[b].user.id))
  {
    var scan := ConversationScan(messages, user);
    CollectUnique(scan, user, users, messages, {});
    CollectOrder(scan, user, users, messages, {});
    assert ConversationList(messages, users, user) == Collect(scan, user, users, messages, {});
  }

  /** Entry `a` is for the other party of the first (newest) scanned
      message with that contact, has that user's nickname and avatar and
      that message's content and time, and counts the unread messages from
      the contact to the caller in the whole store. */
  lemma ConversationEntry(messages: seq<Message>, users: map<UserId, User>, user: UserId, a: nat)
    requires a < |ConversationList(messages, users, user)|
    ensures var scan := ConversationScan(messages, user);
      var e := ConversationList(messages, users, user)[a];
      var k := FirstIndex(scan, user, e.user.id);
      && k < |scan| && scan[k] in messages && Involves(scan[k], user)
      && e.user.id == Counterpart(scan[k], user) && e.user.id in users
      && e.user.nickname == users[e.user.id].nickname && e.user.avatar == users[e.user.id].avatar
      && e.lastMessage == scan[k].content && e.createdAt == scan[k].createdAt
      && e.unreadCount == CountUnread(messages, e.user.id, user)
  {
    CollectSummary(ConversationScan(messages, user), user, users, messages, {}, a);
  }

  /** Every scanned contact with a user record has an entry. */
  lemma ConversationListComplete(messages: seq<Message>, users: map<UserId, User>, user: UserId, k: nat)
    requires k < |ConversationScan(messages, user)|
    requires Counterpart(ConversationScan(messages, user)[k], user) in users
    ensures exists a :: 0 <= a < |ConversationList(messages, users, user)|
                     && ConversationList(messages, users, user)[a].user.id == Counterpart(ConversationScan(messages, user)[k], user)
  {
    var scan := ConversationScan(messages, user);
    CollectComplete(scan, user, users, messages, {}, k);
    var r := Collect(scan, user, users, messages, {});
    var a :| 0 <= a < |r| && r[a].user.id == Counterpart(scan[k], user);
    assert r == ConversationList(messages, users, user);
  }

  /** An entry's message is the newest scanned message with its contact. */
  lemma ConversationIsNewest(messages: seq<Message>, users: map<UserId, User>, user: UserId, a: nat, j: nat)
    requires a < |ConversationList(messages, users, user)|
    requires j < |ConversationScan(messages, user)|
    requires Counterpart(ConversationScan(messages, user)[j], user) == ConversationList(messages, users, user)[a].user.id
    ensures ConversationScan(messages, user)[j].createdAt <= ConversationList(messages, users, user)[a].createdAt
  {
    CollectNewest(ConversationScan(messages, user), user, users, messages, a, j);
  }

  /** Over a newest-first scan, an entry's message is at least as new as
      every scanned message with its contact. */
  lemma CollectNewest(scan: seq<Message>, user: UserId, users: map<UserId, User>, store: seq<Message>, a: nat, j: nat)
    requires SortedBy(scan, Desc(MessageCreated))
    requires a < |Collect(scan, user, users, store, {})| && j < |scan|
    requires Counterpart(scan[j], user) == Collect(scan, user, users, store, {})[a].user.id
    ensures scan[j].createdAt <= Collect(scan, user, users, store, {})[a].createdAt
  {
    var r := Collect(scan, user, users, store, {});
    CollectSummary(scan, user, users, store, {}, a);
    var k := FirstIndex(scan, user, r[a].user.id);
    assert k <= j;
    if k < j {
      assert Desc(MessageCreated)(scan[k]) <= Desc(MessageCreated)(scan[j]);
      assert MessageCreated(scan[j]) <= MessageCreated(scan[k]);
    }
  }

  /** Fetching the thread with `other` leaves `other`'s conversation entry
      with no unread messages. */
  lemma ReadThreadClearsUnread(messages: seq<Message>, users: map<UserId, User>, user: UserId, other: UserId, a: nat)
    requires a < |ConversationList(MarkRead(messages, user, other), users, user)|
    requires ConversationList(MarkRead(messages, user, other), users, user)[a].user.id == other
    ensures ConversationList(MarkRead(messages, user, other), users, user)[a].unreadCount == 0
  {
    ConversationEntry(MarkRead(messages, user, other), users, user, a);
    MarkReadCounts(messages, user, other, other, user);
  }

  // ----- GET /api/messages -----

  datatype MessagesView = ThreadView(messages: seq<Message>) | ConversationsView(conversations: seq<Conversation>)

  /** The thread branch: the page is read first, then every unread message
      from `other` to `user` is marked read. */
  method FetchThread(db: Database, user: UserId, other: UserId, skip: nat, take: nat) returns (page: seq<Message>)
    modifies db`messages
    ensures page == ThreadPage(old(db.messages), user, other, skip, take)
    ensures db.messages == MarkRead(old(db.messages), user, other)
  {
    page := ThreadPage(db.messages, user, other, skip, take);
    db.messages := MarkRead(db.messages, user, other);
  }

  /** `take: pageSize`, 20 unless the client gave one. */
  function ThreadTake(pageSizeParam: Option<int>): int
  {
    if pageSizeParam.Some? then pageSizeParam.value else 20
  }

  /** `skip: (page - 1) * pageSize`, where page is 1 unless the client gave one. */
  function ThreadSkip(pageParam: Option<int>, pageSizeParam: Option<int>): int
  {
    ((if pageParam.Some? then pageParam.value else 1) - 1) * ThreadTake(pageSizeParam)
  }

  /** The thread branch: the store refuses a negative skip, and a negative
      take is modelled as a refusal too (the store would read it as counting
      from the end); `commits` says whether the mark-read write succeeds.
      Each failure is answered as an internal error with the store unchanged. */
  method PagedThread(db: Database, user: UserId, other: UserId, skip: int, take: int, commits: bool)
    returns (r: Result<MessagesView>)
    modifies db`messages
    ensures skip < 0 || take < 0 || !commits ==> r == Err(Internal) && db.messages == old(db.messages)
    ensures skip >= 0 && take >= 0 && commits ==>
      && r == Ok(ThreadView(ThreadPage(old(db.messages), user, other, skip, take)))
      && db.messages == MarkRead(old(db.messages), user, other)
  {
    if skip < 0 || take < 0 || !commits {
      return Err(Internal);
    }
    var thread := FetchThread(db, user, other, skip, take);
    r := Ok(ThreadView(thread));
  }

  /** GET /api/messages. With a non-empty `with` the caller's thread with
      that user is returned (page and pageSize default to 1 and 20, and
      nothing checks their range: the store refuses a negative skip, a
      negative take is modelled as a refusal, and the handler reports either
      as an internal error) and the
      thread's unread messages to the caller are marked read afterwards,
      a write the store may refuse (`commits`); otherwise the conversation
      list is returned. */
  method GetMessages(
    db: Database, authorization: Option<string>, verify: string -> Option<UserId>,
    withParam: Option<string>, pageParam: Option<int>, pageSizeParam: Option<int>, commits: bool)
    returns (r: Result<MessagesView>)
    modifies db`messages
    ensures Auth.Caller(Auth.ReplacedToken(authorization), verify).None? ==>
      r == Err(Unauthorized) && db.messages == old(db.messages)
    ensures var caller := Auth.Caller(Auth.ReplacedToken(authorization), verify);
      var skip := ThreadSkip(pageParam, pageSizeParam);
      var take := ThreadTake(pageSizeParam);
      caller.Some? && withParam.Some? && withParam.value != "" ==>
      && (skip < 0 || take < 0 || !commits ==> r == Err(Internal) && db.messages == old(db.messages))
      && (skip >= 0 && take >= 0 && commits ==>
            && r == Ok(ThreadView(ThreadPage(old(db.messages), caller.value, withParam.value, skip, take)))
            && db.messages == MarkRead(old(db.messages), caller.value, withParam.value))
    ensures var caller := Auth.Caller(Auth.ReplacedToken(authorization), verify);
      caller.Some? && (withParam.None? || withParam.value == "") ==>
      && r == Ok(ConversationsView(ConversationList(old(db.messages), db.users, caller.value)))
      && db.messages == old(db.messages)
  {
    var userId := Auth.Caller(Auth.ReplacedToken(authorization), verify);
    if userId.None? {
      return Err(Unauthorized);
    }
    if withParam.Some? && withParam.value != "" {
      var skip, take := ThreadSkip(pageParam, pageSizeParam), ThreadTake(pageSizeParam);
      r := PagedThread(db, userId.value, withParam.value, skip, take, commits);
    } else {
      var conversations := ListConversations(db, userId.value);
      r := Ok(ConversationsView(conversations));
    }
  }

  // ----- POST /api/messages -----

  /** The JSON body; a field the client left out is None. */
  datatype SendBody = SendBody(receiverId: Option<string>, content: Option<string>, kind: Option<string>)

  datatype Outgoing = Outgoing(receiverId: UserId, content: string, kind: MessageType)

  /** `sendMessageSchema`: a non-empty receiver id, content of 1 to 1000
      characters and a type of 'text' (the default) or 'image'. */
  function ParseSendBody(b: SendBody): (r: Result<Outgoing>)
    ensures r.Ok? <==>
      && b.receiverId.Some? && |b.receiverId.value| >= 1
      && b.content.Some? && 1 <= |b.content.value| <= 1000
      && (b.kind.None? || b.kind.value == "text" || b.kind.value == "image")
    ensures r.Err? ==> r.error == Validation
    ensures r.Ok? ==>
      && r.value.receiverId == b.receiverId.value && r.value.content == b.content.value
      && (r.value.kind == Image <==> b.kind == Some("image"))
  {
    if b.receiverId.None? || |b.receiverId.value| < 1 then Err(Validation)
    else if b.content.None? || |b.content.value| < 1 || |b.content.value| > 1000 then Err(Validation)
    else if b.kind.Some? && b.kind.value != "text" && b.kind.value != "image" then Err(Validation)
    else Ok(Outgoing(b.receiverId.value, b.content.value, if b.kind == Some("image") then Image else Text))
  }

  /** The POST handler's decision: the message to insert or the failure.
      `newId` and `now` are what the store assigns, `commits` whether the
      insert succeeds. The receiver's existence is checked before the
      self-send rule. */
  function ComposeMessage(
    users: map<UserId, User>, caller: Option<UserId>, body: SendBody,
    newId: string, now: Timestamp, commits: bool): (r: Result<Message>)
    ensures r == Err(Unauthorized) <==> caller.None?
    ensures r == Err(Validation) <==> caller.Some? && ParseSendBody(body).Err?
    ensures r == Err(NotFound) <==>
      caller.Some? && ParseSendBody(body).Ok? && ParseSendBody(body).value.receiverId !in users
    ensures r == Err(BadRequest(SelfMessage)) <==>
      caller.Some? && ParseSendBody(body).Ok? && ParseSendBody(body).value.receiverId in users
      && ParseSendBody(body).value.receiverId == caller.value
    ensures r == Err(Internal) <==>
      caller.Some? && ParseSendBody(body).Ok? && ParseSendBody(body).value.receiverId in users
      && ParseSendBody(body).value.receiverId != caller.value && !commits
    ensures r.Ok? ==>
      && r.value.senderId == caller.value && r.value.receiverId in users
      && r.value.receiverId != r.value.senderId
      && r.value.receiverId == body.receiverId.value && r.value.content == body.content.value
      && (r.value.kind == Image <==> body.kind == Some("image"))
      && 1 <= |r.value.content| <= 1000 && !r.value.isRead
      && r.value.id == newId && r.value.createdAt == now
  {
    if caller.None? then Err(Unauthorized)
    else match ParseSendBody(body)
      case Err(e) => Err(e)
      case Ok(out) =>
        if out.receiverId !in users then Err(NotFound)
        else if out.receiverId == caller.value then Err(BadRequest(SelfMessage))
        else if !commits then Err(Internal)
        else Ok(Message(newId, caller.value, out.receiverId, out.content, out.kind, false, now))
  }

  /** POST /api/messages against the store: a successful send appends
      exactly the composed message, anything else leaves the store alone. */
  method SendMessage(
    db: Database, authorization: Option<string>, verify: string -> Option<UserId>,
    body: SendBody, newId: string, now: Timestamp, commits: bool)
    returns (r: Result<Message>)
    modifies db`messages
    ensures r == ComposeMessage(db.users, Auth.Caller(Auth.ReplacedToken(authorization), verify), body, newId, now, commits)
    ensures db.messages == if r.Ok? then old(db.messages) + [r.value] else old(db.messages)
  {
    var userId := Auth.Caller(Auth.ReplacedToken(authorization), verify);
    r := ComposeMessage(db.users, userId, body, newId, now, commits);
    if r.Ok? {
      db.messages := db.messages + [r.value];
    }
  }
}
