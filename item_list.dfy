/** GET /api/items: the query schema, the `where` it builds, and the page
    and total of the matching listings. */
module ItemList {
  import opened Api
  import opened SharedTypes
  import opened Rows
  import Auth

  /** The search parameters as the handler reads them: `None` for a
      parameter that is absent (the numbers are already coerced). */
  datatype QueryParams = QueryParams(
    page: Option<int>,
    pageSize: Option<int>,
    categoryId: Option<string>,
    schoolId: Option<string>,
    status: Option<string>,
    itemType: Option<string>,
    keyword: Option<string>,
    sortBy: Option<string>,
    sortOrder: Option<string>)

  datatype SortField = ByCreatedAt | ByPrice | ByViews

  datatype SortOrder = Ascending | Descending

  datatype ItemQuery = ItemQuery(
    page: int,
    pageSize: int,
    categoryId: Option<CategoryId>,
    schoolId: Option<SchoolId>,
    status: Option<ItemStatus>,
    itemType: Option<ItemType>,
    keyword: Option<string>,
    sortBy: SortField,
    sortOrder: SortOrder)

  /** `searchParams.get(name) || undefined`: an empty value counts as absent. */
  function NonEmpty(p: Option<string>): (r: Option<string>)
    ensures r.Some? <==> p.Some? && p.value != ""
    ensures r.Some? ==> r == p
  {
    if p.Some? && p.value != "" then p else None
  }

  /** `z.enum(['available', 'sold', 'rented'])`: a removed listing cannot be
      asked for. */
  function ParseListedStatus(name: string): (r: Option<ItemStatus>)
    ensures r.Some? ==> ItemStatusName(r.value) == name && r.value != Removed
    ensures forall s :: s != Removed && ItemStatusName(s) == name ==> r == Some(s)
  {
    if name == "available" then Some(Available)
    else if name == "sold" then Some(Sold)
    else if name == "rented" then Some(Rented)
    else None
  }

  function SortFieldName(f: SortField): string
  {
    match f
    case ByCreatedAt => "createdAt"
    case ByPrice => "price"
    case ByViews => "views"
  }

  function SortOrderName(o: SortOrder): string
  {
    match o
    case Ascending => "asc"
    case Descending => "desc"
  }

  /** `z.enum(['createdAt', 'price', 'views'])`. */
  function ParseSortField(name: string): (r: Option<SortField>)
    ensures r.Some? ==> SortFieldName(r.value) == name
    ensures forall f :: SortFieldName(f) == name ==> r == Some(f)
  {
    if name == "createdAt" then Some(ByCreatedAt)
    else if name == "price" then Some(ByPrice)
    else if name == "views" then Some(ByViews)
    else None
  }

  /** `z.enum(['asc', 'desc'])`. */
  function ParseSortOrder(name: string): (r: Option<SortOrder>)
    ensures r.Some? ==> SortOrderName(r.value) == name
    ensures forall o :: SortOrderName(o) == name ==> r == Some(o)
  {
    if name == "asc" then Some(Ascending)
    else if name == "desc" then Some(Descending)
    else None
  }

  /** `get('sortBy') || 'createdAt'` through the enum. */
  function SortFieldOf(p: Option<string>): (r: Option<SortField>)
    ensures NonEmpty(p).None? ==> r == Some(ByCreatedAt)
    ensures NonEmpty(p).Some? ==> r == ParseSortField(p.value)
  {
    ParseSortField(if NonEmpty(p).Some? then p.value else "createdAt")
  }

  /** `get('sortOrder') || 'desc'` through the enum. */
  function SortOrderOf(p: Option<string>): (r: Option<SortOrder>)
    ensures NonEmpty(p).None? ==> r == Some(Descending)
    ensures NonEmpty(p).Some? ==> r == ParseSortOrder(p.value)
  {
    ParseSortOrder(if NonEmpty(p).Some? then p.value else "desc")
  }

  /** `querySchema.safeParse`: page at least 1 (default 1), pageSize from 1
      to 50 (default 20), the enums checked, sorting by creation time
      descending unless asked otherwise. Any violation is a validation
      error. */
  function ParseItemQuery(p: QueryParams): (r: Result<ItemQuery>)
    ensures r.Ok? <==>
      && (p.page.None? || p.page.value >= 1)
      && (p.pageSize.None? || 1 <= p.pageSize.value <= 50)
      && (NonEmpty(p.status).None? || ParseListedStatus(p.status.value).Some?)
      && (NonEmpty(p.itemType).None? || ParseItemType(p.itemType.value).Some?)
      && (NonEmpty(p.sortBy).None? || ParseSortField(p.sortBy.value).Some?)
      && (NonEmpty(p.sortOrder).None? || ParseSortOrder(p.sortOrder.value).Some?)
    ensures r.Err? ==> r.error == Validation
    ensures r.Ok? ==>
      var q := r.value;
      && q.page >= 1 && 1 <= q.pageSize <= 50
      && q.page == (if p.page.Some? then p.page.value else 1)
      && q.pageSize == (if p.pageSize.Some? then p.pageSize.value else 20)
      && q.categoryId == NonEmpty(p.categoryId) && q.schoolId == NonEmpty(p.schoolId)
      && q.keyword == NonEmpty(p.keyword)
      && (q.status.Some? <==> NonEmpty(p.status).Some?)
      && (q.status.Some? ==> q.status.value != Removed && ItemStatusName(q.status.value) == p.status.value)
      && (q.itemType.Some? <==> NonEmpty(p.itemType).Some?)
      && (q.itemType.Some? ==> ItemTypeName(q.itemType.value) == p.itemType.value)
      && (NonEmpty(p.sortBy).None? ==> q.sortBy == ByCreatedAt)
      && (NonEmpty(p.sortBy).Some? ==> SortFieldName(q.sortBy) == p.sortBy.value)
      && (NonEmpty(p.sortOrder).None? ==> q.sortOrder == Descending)
      && (NonEmpty(p.sortOrder).Some? ==> SortOrderName(q.sortOrder) == p.sortOrder.value)
  {
    var page := if p.page.Some? then p.page.value else 1;
    var pageSize := if p.pageSize.Some? then p.pageSize.value else 20;
    var status := NonEmpty(p.status);
    var itemType := NonEmpty(p.itemType);
    var sortBy := SortFieldOf(p.sortBy);
    var sortOrder := SortOrderOf(p.sortOrder);
    if page < 1 || pageSize < 1 || pageSize > 50 then Err(Validation)
    else if status.Some? && ParseListedStatus(status.value).None? then Err(Validation)
    else if itemType.Some? && ParseItemType(itemType.value).None? then Err(Validation)
    else if sortBy.None? || sortOrder.None? then Err(Validation)
    else
      Ok(ItemQuery(
        page, pageSize, NonEmpty(p.categoryId), NonEmpty(p.schoolId),
        if status.Some? then ParseListedStatus(status.value) else None,
        if itemType.Some? then ParseItemType(itemType.value) else None,
        NonEmpty(p.keyword), sortBy.value, sortOrder.value))
  }

  // ----- the where clause -----

  datatype ItemWhere = ItemWhere(
    status: ItemStatus,
    categoryId: Option<CategoryId>,
    schoolId: Option<SchoolId>,
    itemType: Option<ItemType>,
    keyword: Option<string>)

  /** Lines 43-55: the status defaults to available; the other filters
      are added only when given. */
  function WhereOf(q: ItemQuery): (w: ItemWhere)
    requires q.status.Some? ==> q.status.value != Removed
    ensures w.status != Removed
    ensures w.status == (if q.status.Some? then q.status.value else Available)
    ensures w.categoryId == q.categoryId && w.schoolId == q.schoolId
    ensures w.itemType == q.itemType && w.keyword == q.keyword
  {
    ItemWhere(if q.status.Some? then q.status.value else Available, q.categoryId, q.schoolId, q.itemType, q.keyword)
  }

  function LowerChar(c: char): char
  {
    if 'A' <= c <= 'Z' then (c as int + 32) as char else c
  }

  /** ASCII case folding. */
  function Lower(s: string): (r: string)
    ensures |r| == |s|
    ensures forall i :: 0 <= i < |s| ==> r[i] == LowerChar(s[i])
  {
    if s == [] then [] else [LowerChar(s[0])] + Lower(s[1..])
  }

  /** `needle` occurs in `hay` at some position. */
  predicate Contains(hay: string, needle: string)
  {
    exists i :: 0 <= i <= |hay| && Auth.OccursAt(hay, needle, i)
  }

  /** `contains` with `mode: 'insensitive'`. */
  predicate ContainsInsensitive(hay: string, needle: string)
  {
    Contains(Lower(hay), Lower(needle))
  }

  /** The where clause of lines 43-55 on one listing. */
  predicate Matches(w: ItemWhere, x: Item)
  {
    && x.status == w.status
    && (w.categoryId.Some? ==> x.categoryId == w.categoryId.value)
    && (w.schoolId.Some? ==> x.schoolId == w.schoolId.value)
    && (w.itemType.Some? ==> x.itemType == w.itemType.value)
    && (w.keyword.Some? ==>
          ContainsInsensitive(x.title, w.keyword.value) || ContainsInsensitive(x.description, w.keyword.value))
  }

  /** Folding is idempotent. */
  lemma LowerIdempotent(s: string)
    ensures Lower(Lower(s)) == Lower(s)
  {
    assert forall i :: 0 <= i < |s| ==> Lower(Lower(s))[i] == Lower(s)[i];
  }

  /** The keyword filter ignores case: a keyword matches the same listings
      as its lower-case form. */
  lemma KeywordCaseInsensitive(w: ItemWhere, x: Item, keyword: string)
    ensures Matches(w.(keyword := Some(Lower(keyword))), x) == Matches(w.(keyword := Some(keyword)), x)
  {
    LowerIdempotent(keyword);
  }

  function Matching(w: ItemWhere): Item -> bool
  {
    x => Matches(w, x)
  }

  /** The ascending sort key of a field. */
  function FieldKey(f: SortField): Item -> real
  {
    match f
    case ByCreatedAt => (x: Item) => x.createdAt as real
    case ByPrice => (x: Item) => x.price
    case ByViews => (x: Item) => x.views as real
  }

  /** `orderBy: { [sortBy]: sortOrder }`. */
  function SortKey(f: SortField, o: SortOrder): Item -> real
  {
    if o == Ascending then FieldKey(f) else Desc(FieldKey(f))
  }

  /** The listings in the order the query asks for: every matching row
      of the table, each as often as the table holds it, and nothing
      else, in that order. */
  function Ranked(rows: seq<Item>, q: ItemQuery): (r: seq<Item>)
    requires q.status.Some? ==> q.status.value != Removed
    ensures SortedBy(r, SortKey(q.sortBy, q.sortOrder))
    ensures multiset(r) == multiset(Filter(rows, Matching(WhereOf(q))))
    ensures forall x :: x in r <==> x in rows && Matches(WhereOf(q), x)
    ensures |r| == Count(rows, Matching(WhereOf(q)))
  {
    var matching := Filter(rows, Matching(WhereOf(q)));
    var sorted := SortBy(matching, SortKey(q.sortBy, q.sortOrder));
    SameMembers(sorted, matching);
    assert |sorted| == |matching| by {
      assert |multiset(sorted)| == |multiset(matching)|;
    }
    sorted
  }

  datatype ItemPage = ItemPage(items: seq<Item>, page: int, pageSize: int, total: nat)

  /** What a parsed query satisfies. */
  predicate ValidQuery(q: ItemQuery)
  {
    q.page >= 1 && 1 <= q.pageSize <= 50 && (q.status.Some? ==> q.status.value != Removed)
  }

  /** The response to a parsed query: the page of ranked listings and the
      number of all matches; the page number and size are echoed. */
  function QueryPage(rows: seq<Item>, q: ItemQuery): (r: ItemPage)
    requires ValidQuery(q)
    ensures r.page == q.page && r.pageSize == q.pageSize
    ensures r.total == |Ranked(rows, q)|
    ensures |r.items| <= r.pageSize
  {
    ItemPage(Page(Ranked(rows, q), Offset(q.page, q.pageSize), q.pageSize),
             q.page, q.pageSize, Count(rows, Matching(WhereOf(q))))
  }

  /** GET /api/items over the rows of the item table, in store order. */
  function ListItems(rows: seq<Item>, p: QueryParams): (r: Result<ItemPage>)
    ensures r.Err? <==> ParseItemQuery(p).Err?
    ensures r.Err? ==> r.error == Validation
    ensures r.Ok? ==> ValidQuery(ParseItemQuery(p).value) && r.value == QueryPage(rows, ParseItemQuery(p).value)
  {
    match ParseItemQuery(p)
    case Err(e) => Err(e)
    case Ok(q) => Ok(QueryPage(rows, q))
  }

  /** A page holds at most `pageSize` listings, all of them in the table
      and matching the where clause (so never removed, and available when
      no status is asked for), in the requested order; it is the ranked
      listings' slice at `(page - 1) * pageSize`, and `total` counts every
      match. */
  lemma QueryPageSpec(rows: seq<Item>, q: ItemQuery)
    requires ValidQuery(q)
    ensures var r := QueryPage(rows, q);
      var ranked := Ranked(rows, q);
      && |r.items| == (if Offset(q.page, q.pageSize) >= r.total then 0
                       else Min(r.pageSize, r.total - Offset(q.page, q.pageSize)))
      && (forall k :: 0 <= k < |r.items| ==> r.items[k] == ranked[Offset(q.page, q.pageSize) + k])
      && (forall k :: 0 <= k < |r.items| ==>
            r.items[k] in rows && Matches(WhereOf(q), r.items[k]) && r.items[k].status != Removed)
      && SortedBy(r.items, SortKey(q.sortBy, q.sortOrder))
  {
    var ranked := Ranked(rows, q);
    var r := QueryPage(rows, q);
    SortedPage(ranked, Offset(q.page, q.pageSize), q.pageSize, SortKey(q.sortBy, q.sortOrder));
    forall k | 0 <= k < |r.items| ensures r.items[k] in rows && Matches(WhereOf(q), r.items[k]) {
      assert r.items[k] == ranked[Offset(q.page, q.pageSize) + k];
    }
  }

  /** Index `k` lies on page `k / size + 1`. */
  lemma PageOfIndex(k: nat, size: int) returns (page: int)
    requires size >= 1
    ensures page == k / size + 1 && page >= 1
    ensures Offset(page, size) <= k < Offset(page, size) + size
  {
    page := k / size + 1;
    assert Offset(page, size) == (k / size) * size;
    assert k == (k / size) * size + k % size;
  }

  /** A matching listing has a rank. */
  lemma RankOf(rows: seq<Item>, q: ItemQuery, x: Item) returns (k: nat)
    requires q.status.Some? ==> q.status.value != Removed
    requires x in rows && Matches(WhereOf(q), x)
    ensures k < |Ranked(rows, q)| && Ranked(rows, q)[k] == x
  {
    k :| 0 <= k < |Ranked(rows, q)| && Ranked(rows, q)[k] == x;
  }

  /** Changing only the page number keeps the ranking: page `page` is the
      ranked listings' slice at `(page - 1) * pageSize`. */
  lemma OtherPage(rows: seq<Item>, q: ItemQuery, page: int)
    requires ValidQuery(q) && page >= 1
    ensures ValidQuery(q.(page := page))
    ensures QueryPage(rows, q.(page := page)).items == Page(Ranked(rows, q), Offset(page, q.pageSize), q.pageSize)
  {
    var q2 := q.(page := page);
    assert WhereOf(q2) == WhereOf(q);
    assert Ranked(rows, q2) == Ranked(rows, q);
  }

  /** Every matching listing is on some page of the query: paging with a
      fixed page size misses nothing. */
  lemma QueryPageCovers(rows: seq<Item>, q: ItemQuery, x: Item)
    requires ValidQuery(q)
    requires x in rows && Matches(WhereOf(q), x)
    ensures exists page :: page >= 1 && x in QueryPage(rows, q.(page := page)).items
  {
    var k := RankOf(rows, q, x);
    var page := PageOfIndex(k, q.pageSize);
    InPage(Ranked(rows, q), Offset(page, q.pageSize), q.pageSize, k);
    var items := Page(Ranked(rows, q), Offset(page, q.pageSize), q.pageSize);
    assert x in items;
    OtherPage(rows, q, page);
    assert x in QueryPage(rows, q.(page := page)).items;
  }
}
