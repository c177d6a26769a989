/** The service catalogue: loading every source page, filtering, ranking and keyset paging. */
module MarketServices {
  import opened Common
  import opened MarketCursor

  type Int64 = x: int | MIN_INT64 <= x <= MAX_INT64

  datatype Service = Service(
    id: Int64,
    completed: Int64,
    price: Int64,
    averageDelivery: Int64,
    rating: Int64,
    hasRating: bool,
    model: string,
    isFriend: bool,
    text: string)

  datatype Filter = Filter(
    model: string,
    friendsOnly: bool,
    hasCompleted: bool,
    maxDelivery: Option<int>,
    minRating: Option<int>,
    minPrice: Option<int>,
    maxPrice: Option<int>)

  /** The filters of a query; `matches` is the case-insensitive text search. */
  predicate Wanted(item: Service, f: Filter, matches: Service -> bool) {
    && (f.model != "" ==> item.model == f.model)
    && (f.friendsOnly ==> item.isFriend)
    && (f.hasCompleted ==> item.completed > 0)
    && (f.maxDelivery.Some? ==> item.completed > 0 && 0 < item.averageDelivery <= f.maxDelivery.value)
    && (f.minRating.Some? ==> item.hasRating && item.rating >= f.minRating.value)
    && (f.minPrice.Some? ==> item.price >= f.minPrice.value)
    && (f.maxPrice.Some? ==> item.price <= f.maxPrice.value)
    && matches(item)
  }

  /** A service is left out exactly when one of the given filters excludes it or its text does not match. */
  lemma LeftOutExactly(item: Service, f: Filter, matches: Service -> bool)
    ensures !Wanted(item, f, matches) <==>
        || (f.model != "" && item.model != f.model) || (f.friendsOnly && !item.isFriend)
        || (f.hasCompleted && item.completed <= 0)
        || (f.maxDelivery.Some? && (item.completed <= 0 || item.averageDelivery <= 0
                                    || item.averageDelivery > f.maxDelivery.value))
        || (f.minRating.Some? && (!item.hasRating || item.rating < f.minRating.value))
        || (f.minPrice.Some? && item.price < f.minPrice.value) || (f.maxPrice.Some? && item.price > f.maxPrice.value)
        || !matches(item)
  {
  }

  /** The order of the catalogue: more completed orders first, then higher ids. */
  predicate Before(a: Service, b: Service) {
    a.completed > b.completed || (a.completed == b.completed && a.id > b.id)
  }

  /** A loaded catalogue: distinct positive ids and counts that are not negative. */
  ghost predicate Catalogue(items: seq<Service>) {
    && Positive(items)
    && (forall i, j | 0 <= i < j < |items| :: items[i].id != items[j].id)
  }

  /** Strictly in catalogue order. */
  ghost predicate Ranked(items: seq<Service>) {
    forall j {:trigger RankedAt(items, j)} | 0 <= j < |items| :: RankedAt(items, j)
  }

  ghost predicate RankedAt(items: seq<Service>, j: nat)
    requires j < |items|
  {
    forall i | 0 <= i < j :: Before(items[i], items[j])
  }

  ghost predicate Positive(items: seq<Service>) {
    forall i | 0 <= i < |items| :: items[i].id > 0 && items[i].completed >= 0
  }

  lemma RankedTail(items: seq<Service>)
    requires Ranked(items) && items != []
    ensures Ranked(items[1..])
  {
    forall j | 0 <= j < |items| - 1 ensures RankedAt(items[1..], j) { assert RankedAt(items, j + 1); }
  }

  function Keep(items: seq<Service>, f: Filter, matches: Service -> bool): seq<Service> {
    if items == [] then []
    else
      var front := Keep(items[..|items| - 1], f, matches);
      if Wanted(items[|items| - 1], f, matches) then front + [items[|items| - 1]] else front
  }

  function Place(ranked: seq<Service>, item: Service): seq<Service> {
    if ranked == [] || Before(item, ranked[0]) then [item] + ranked else [ranked[0]] + Place(ranked[1..], item)
  }

  function Rank(items: seq<Service>): seq<Service> {
    if items == [] then [] else Place(Rank(items[..|items| - 1]), items[|items| - 1])
  }

  /** The reference: everything wanted, in catalogue order. */
  function Listing(items: seq<Service>, f: Filter, matches: Service -> bool): seq<Service> {
    Rank(Keep(items, f, matches))
  }

  // ----------------------------------------------------------------- the reference is what was asked for

  lemma {:induction false} KeepMeaning(items: seq<Service>, f: Filter, matches: Service -> bool)
    ensures forall x :: x in Keep(items, f, matches) <==> x in items && Wanted(x, f, matches)
  {
    if items != [] {
      assert items == items[..|items| - 1] + [items[|items| - 1]];
      KeepMeaning(items[..|items| - 1], f, matches);
    }
  }

  lemma {:induction false} KeepIsCatalogue(items: seq<Service>, f: Filter, matches: Service -> bool)
    requires Catalogue(items)
    ensures Catalogue(Keep(items, f, matches))
  {
    if items != [] {
      var front, last := items[..|items| - 1], items[|items| - 1];
      KeepIsCatalogue(front, f, matches);
      KeepMeaning(front, f, matches);
      var kept := Keep(front, f, matches);
      forall i | 0 <= i < |kept| ensures kept[i].id != last.id {
        assert kept[i] in front;
        NotLast(items, kept[i]);
      }
      AppendCatalogue(kept, last);
    }
  }

  lemma NotLast(items: seq<Service>, x: Service)
    requires items != [] && Catalogue(items) && x in items[..|items| - 1]
    ensures x.id != items[|items| - 1].id
  {
    var j :| 0 <= j < |items| - 1 && items[j] == x;
    assert items[j].id != items[|items| - 1].id;
  }

  lemma AppendCatalogue(items: seq<Service>, last: Service)
    requires Catalogue(items) && last.id > 0 && last.completed >= 0
    requires forall i | 0 <= i < |items| :: items[i].id != last.id
    ensures Catalogue(items + [last])
  {
    var all := items + [last];
    forall i, j | 0 <= i < j < |all| ensures all[i].id != all[j].id {
      if j < |items| { assert items[i].id != items[j].id; }
    }
  }

  lemma {:induction false} PlaceKeeps(ranked: seq<Service>, item: Service)
    ensures multiset(Place(ranked, item)) == multiset(ranked) + multiset{item}
  {
    if ranked != [] && !Before(item, ranked[0]) {
      PlaceKeeps(ranked[1..], item);
      assert ranked == [ranked[0]] + ranked[1..];
    }
  }

  lemma {:induction false} PlaceRanks(ranked: seq<Service>, item: Service)
    requires Ranked(ranked) && forall i | 0 <= i < |ranked| :: ranked[i].id != item.id
    ensures Ranked(Place(ranked, item))
  {
    var all := Place(ranked, item);
    if ranked == [] || Before(item, ranked[0]) {
      forall j | 0 <= j < |all| ensures RankedAt(all, j) {
        if j > 0 { assert RankedAt(ranked, j - 1); }
      }
    } else {
      var rest := Place(ranked[1..], item);
      RankedTail(ranked);
      PlaceRanks(ranked[1..], item);
      forall j | 0 <= j < |all| ensures RankedAt(all, j) {
        if j > 0 {
          assert RankedAt(rest, j - 1);
          FirstBefore(ranked, item, j - 1);
        }
      }
    }
  }

  lemma FirstBefore(ranked: seq<Service>, item: Service, j: nat)
    requires Ranked(ranked) && ranked != [] && Before(ranked[0], item) && j < |Place(ranked[1..], item)|
    ensures Before(ranked[0], Place(ranked[1..], item)[j])
  {
    var rest := Place(ranked[1..], item);
    PlaceKeeps(ranked[1..], item);
    assert rest[j] in multiset(rest);
    if rest[j] != item {
      assert rest[j] in ranked[1..];
      var i :| 0 <= i < |ranked| - 1 && ranked[1..][i] == rest[j];
      assert RankedAt(ranked, i + 1);
    }
  }

  lemma {:induction false} RankKeeps(items: seq<Service>)
    ensures multiset(Rank(items)) == multiset(items)
  {
    if items != [] {
      var front, last := items[..|items| - 1], items[|items| - 1];
      assert items == front + [last];
      RankKeeps(front);
      PlaceKeeps(Rank(front), last);
    }
  }

  lemma RankMember(items: seq<Service>, i: nat)
    requires i < |Rank(items)|
    ensures Rank(items)[i] in items
  {
    RankKeeps(items);
    assert Rank(items)[i] in multiset(Rank(items));
    assert Rank(items)[i] in multiset(items);
  }

  lemma {:induction false} RankRanks(items: seq<Service>)
    requires Catalogue(items)
    ensures Ranked(Rank(items))
  {
    if items != [] {
      var front, last := items[..|items| - 1], items[|items| - 1];
      RankRanks(front);
      forall i | 0 <= i < |Rank(front)| ensures Rank(front)[i].id != last.id {
        RankMember(front, i);
        NotLast(items, Rank(front)[i]);
      }
      PlaceRanks(Rank(front), last);
    }
  }

  /** The listing holds exactly the wanted services, once each, in strictly descending order. */
  lemma ListingMeaning(items: seq<Service>, f: Filter, matches: Service -> bool)
    requires Catalogue(items)
    ensures var r := Listing(items, f, matches);
            Ranked(r) && |r| == |Keep(items, f, matches)| && forall x :: x in r <==> x in items && Wanted(x, f, matches)
  {
    var kept := Keep(items, f, matches);
    KeepMeaning(items, f, matches);
    KeepIsCatalogue(items, f, matches);
    RankKeeps(kept);
    RankRanks(kept);
    var r := Rank(kept);
    assert |multiset(r)| == |multiset(kept)|;
    forall x ensures x in r <==> x in kept {
      assert x in r <==> x in multiset(r);
      assert x in kept <==> x in multiset(kept);
    }
  }

  // ----------------------------------------------------------------- one page

  /** A service comes after the cursor, if there is one. */
  predicate After(item: Service, cursor: Option<(int, int)>) {
    cursor.Some? ==> !(item.completed > cursor.value.0 || (item.completed == cursor.value.0
                                                           && item.id >= cursor.value.1))
  }

  /** `next` is empty on the last page. */
  datatype Page = Page(items: seq<Service>, total: nat, next: string)

  /** The index of the first service after the cursor. */
  function Skip(ranked: seq<Service>, cursor: Option<(int, int)>): (r: nat)
    ensures r <= |ranked|
  {
    if ranked == [] || After(ranked[0], cursor) then 0 else 1 + Skip(ranked[1..], cursor)
  }

  function Cut(ranked: seq<Service>, from: nat, limit: nat): Page
    requires from <= |ranked| && limit >= 1
    requires Positive(ranked)
  {
    if |ranked| - from > limit
    then Page(ranked[from..from + limit], |ranked|, EncodeCursor(ranked[from + limit - 1].completed,
                                                                 ranked[from + limit - 1].id))
    else Page(ranked[from..], |ranked|, "")
  }

  /** Exactly the services from index `n` on come after the cursor. */
  ghost predicate Splits(ranked: seq<Service>, cursor: Option<(int, int)>, n: nat) {
    n <= |ranked| && forall i | 0 <= i < |ranked| :: After(ranked[i], cursor) <==> n <= i
  }

  lemma {:induction false} SkipMeaning(ranked: seq<Service>, cursor: Option<(int, int)>)
    requires Ranked(ranked)
    ensures Splits(ranked, cursor, Skip(ranked, cursor))
  {
    if ranked != [] {
      if After(ranked[0], cursor) {
        forall i | 0 <= i < |ranked| ensures After(ranked[i], cursor) { assert RankedAt(ranked, i); }
      } else {
        RankedTail(ranked);
        SkipMeaning(ranked[1..], cursor);
        forall i | 0 <= i < |ranked| ensures After(ranked[i], cursor) <==> Skip(ranked, cursor) <= i {
          assert i > 0 ==> ranked[i] == ranked[1..][i - 1];
        }
      }
    }
  }

  lemma RankedPositive(items: seq<Service>)
    requires Catalogue(items)
    ensures Ranked(Rank(items)) && Positive(Rank(items))
  {
    RankRanks(items);
    forall i | 0 <= i < |Rank(items)| ensures Rank(items)[i].id > 0 && Rank(items)[i].completed >= 0 {
      RankMember(items, i);
      var j :| 0 <= j < |items| && items[j] == Rank(items)[i];
    }
  }

  // ----------------------------------------------------------------- the models on offer

  /** The order of sort.Strings. */
  predicate Precedes(a: string, b: string) {
    b != "" && (a == "" || a[0] < b[0] || (a[0] == b[0] && Precedes(a[1..], b[1..])))
  }

  lemma {:induction false} PrecedesTotal(a: string, b: string)
    ensures a == b || Precedes(a, b) || Precedes(b, a)
  {
    if a != "" && b != "" && a[0] == b[0] {
      PrecedesTotal(a[1..], b[1..]);
      assert a == [a[0]] + a[1..] && b == [b[0]] + b[1..];
    }
  }

  lemma {:induction false} PrecedesTransitive(a: string, b: string, c: string)
    requires Precedes(a, b) && Precedes(b, c)
    ensures Precedes(a, c)
  {
    if a != "" && a[0] == b[0] && b[0] == c[0] { PrecedesTransitive(a[1..], b[1..], c[1..]); }
  }

  /** Strictly ascending, and so without repeats. */
  ghost predicate Ascending(names: seq<string>) {
    forall i, j | 0 <= i < j < |names| :: Precedes(names[i], names[j])
  }

  function PlaceName(names: seq<string>, m: string): seq<string> {
    if names == [] || Precedes(m, names[0]) then [m] + names else [names[0]] + PlaceName(names[1..], m)
  }

  function SortNames(names: seq<string>): seq<string> {
    if names == [] then [] else PlaceName(SortNames(names[..|names| - 1]), names[|names| - 1])
  }

  lemma {:induction false} PlaceNameMembers(names: seq<string>, m: string)
    ensures forall n :: n in PlaceName(names, m) <==> n == m || n in names
  {
    if names != [] && !Precedes(m, names[0]) {
      PlaceNameMembers(names[1..], m);
      assert names == [names[0]] + names[1..];
    }
  }

  lemma {:induction false} PlaceNameAscends(names: seq<string>, m: string)
    requires Ascending(names) && m !in names
    ensures Ascending(PlaceName(names, m))
  {
    if names != [] {
      if Precedes(m, names[0]) {
        forall j | 0 <= j < |names| ensures Precedes(m, names[j]) {
          if j > 0 { PrecedesTransitive(m, names[0], names[j]); }
        }
      } else {
        PlaceNameAscends(names[1..], m);
        PlaceNameMembers(names[1..], m);
        PrecedesTotal(names[0], m);
        assert forall n <- PlaceName(names[1..], m) :: Precedes(names[0], n);
      }
    }
  }

  /** Sorting names without repeats. */
  lemma {:induction false} SortNamesMeaning(names: seq<string>)
    requires forall i, j | 0 <= i < j < |names| :: names[i] != names[j]
    ensures Ascending(SortNames(names)) && forall n :: n in SortNames(names) <==> n in names
  {
    if names != [] {
      var front, last := names[..|names| - 1], names[|names| - 1];
      SortNamesMeaning(front);
      PlaceNameAscends(SortNames(front), last);
      PlaceNameMembers(SortNames(front), last);
    }
  }

  /** The names that services of the catalogue give as their model. */
  ghost predicate Offered(items: seq<Service>, m: string) {
    m != "" && exists item <- items :: item.model == m
  }

  lemma OfferedNext(items: seq<Service>, i: nat, m: string)
    requires i < |items|
    ensures Offered(items[..i + 1], m) <==> Offered(items[..i], m) || (m != "" && items[i].model == m)
  {
    assert items[..i + 1] == items[..i] + [items[i]];
    assert items[i] in items[..i + 1];
    if Offered(items[..i], m) {
      var item :| item in items[..i] && item.model == m;
      assert item in items[..i + 1];
    }
  }

  /** The distinct models of a catalogue, sorted, whatever the filters. */
  method CollectModels(items: seq<Service>) returns (models: seq<string>)
    ensures Ascending(models) && forall m :: m in models <==> Offered(items, m)
  {
    models := [];
    for i := 0 to |items|
      invariant forall j, k | 0 <= j < k < |models| :: models[j] != models[k]
      invariant forall m :: m in models <==> Offered(items[..i], m)
    {
      forall m ensures Offered(items[..i + 1], m) <==> Offered(items[..i], m) || (m != "" && items[i].model == m) {
        OfferedNext(items, i, m);
      }
      if items[i].model != "" && items[i].model !in models { models := models + [items[i].model]; }
    }
    assert items[..|items|] == items;
    SortNamesMeaning(models);
    models := SortNames(models);
  }

  /** selectMarketServices */
  method SelectServices(items: seq<Service>, f: Filter, matches: Service -> bool, cursor: Option<(int, int)>,
                        limit: nat)
    returns (page: Page, models: seq<string>)
    requires Catalogue(items) && limit >= 1
    ensures Positive(Listing(items, f, matches))
    ensures Ascending(models) && forall m :: m in models <==> Offered(items, m)
    ensures page == Cut(Listing(items, f, matches), Skip(Listing(items, f, matches), cursor), limit)
  {
    var filtered := [];
    for i := 0 to |items|
      invariant filtered == Keep(items[..i], f, matches)
    {
      assert items[..i + 1][..i] == items[..i];
      if Wanted(items[i], f, matches) { filtered := filtered + [items[i]]; }
    }
    assert items[..|items|] == items;
    KeepIsCatalogue(items, f, matches);
    var ranked := Rank(filtered);
    RankedPositive(filtered);
    SkipMeaning(ranked, cursor);
    page := TakePage(ranked, cursor, limit);
    models := CollectModels(items);
  }

  method TakePage(ranked: seq<Service>, cursor: Option<(int, int)>, limit: nat) returns (page: Page)
    requires Splits(ranked, cursor, Skip(ranked, cursor)) && limit >= 1
    requires Positive(ranked)
    ensures page == Cut(ranked, Skip(ranked, cursor), limit)
  {
    var items, more := TakeItems(ranked, cursor, limit, Skip(ranked, cursor));
    if !more { return Page(items, |ranked|, ""); }
    var last := items[limit - 1];
    return Page(items, |ranked|, EncodeCursor(last.completed, last.id));
  }

  /** What has been taken of the services before index `i` when those from `n` on are wanted. */
  function TakenUpTo(ranked: seq<Service>, n: nat, i: nat): seq<Service>
    requires n <= |ranked| && i <= |ranked|
  {
    if i < n then [] else ranked[n..i]
  }

  lemma TakeOneMore(ranked: seq<Service>, n: nat, i: nat)
    requires n <= i < |ranked|
    ensures TakenUpTo(ranked, n, i) + [ranked[i]] == TakenUpTo(ranked, n, i + 1)
    ensures |TakenUpTo(ranked, n, i)| == i - n
  {
  }

  lemma TakenAll(ranked: seq<Service>, n: nat)
    requires n <= |ranked|
    ensures TakenUpTo(ranked, n, |ranked|) == ranked[n..]
  {
  }

  /** The loop that skips up to the cursor and stops at the first service beyond the page. */
  method TakeItems(ranked: seq<Service>, cursor: Option<(int, int)>, limit: nat, ghost n: nat)
    returns (items: seq<Service>, more: bool)
    requires Splits(ranked, cursor, n) && limit >= 1
    ensures more == (|ranked| - n > limit) && items == if more then ranked[n..n + limit] else ranked[n..]
    ensures more ==> |items| == limit && items[limit - 1] == ranked[n + limit - 1]
  {
    items, more := [], false;
    var i := 0;
    while i < |ranked| && !more
      invariant 0 <= i <= |ranked| && items == TakenUpTo(ranked, n, i) && |items| <= limit
      invariant more ==> n <= i < |ranked| && |items| == limit
      decreases |ranked| - i, !more
    {
      var wanted := IsAfter(ranked, cursor, i, n);
      if wanted {
        TakeOneMore(ranked, n, i);
        if |items| == limit {
          more := true;
        } else {
          items := items + [ranked[i]];
          i := i + 1;
        }
      } else {
        i := i + 1;
      }
    }
    TakenAll(ranked, n);
  }

  /** The comparison with the cursor. */
  method IsAfter(ranked: seq<Service>, cursor: Option<(int, int)>, i: nat, ghost n: nat) returns (after: bool)
    requires Splits(ranked, cursor, n) && i < |ranked|
    ensures after == (n <= i)
  {
    return After(ranked[i], cursor);
  }

  // ----------------------------------------------------------------- following the cursors

  function ReadCursor(raw: string): Option<(int, int)> {
    if raw == "" then None else DecodeCursor(raw)
  }

  /** After a page that is not the last, its cursor leads exactly to the service behind its last one. */
  lemma NextPageStarts(ranked: seq<Service>, from: nat, limit: nat)
    requires Ranked(ranked) && from <= |ranked| && limit >= 1 && Positive(ranked)
    ensures var page := Cut(ranked, from, limit);
            && (page.next == "" <==> from + |page.items| == |ranked|)
            && (page.next != "" ==> ReadCursor(page.next).Some? && Skip(ranked, ReadCursor(page.next)) == from + limit)
  {
    if |ranked| - from > limit {
      var last := ranked[from + limit - 1];
      CursorRoundTrip(last.completed, last.id);
      var cursor := Some((last.completed as int, last.id as int));
      SkipMeaning(ranked, cursor);
      var n := Skip(ranked, cursor);
      assert !After(last, cursor);
      assert RankedAt(ranked, from + limit);
      assert After(ranked[from + limit], cursor);
    }
  }

  /** Everything a client collects from a cursor on. */
  ghost function Follow(ranked: seq<Service>, from: nat, limit: nat): seq<Service>
    requires Ranked(ranked) && from <= |ranked| && limit >= 1 && Positive(ranked)
    decreases |ranked| - from
  {
    NextPageStarts(ranked, from, limit);
    var page := Cut(ranked, from, limit);
    page.items + if page.next == "" then [] else Follow(ranked, Skip(ranked, ReadCursor(page.next)), limit)
  }

  lemma PageThenRest(ranked: seq<Service>, from: nat, page: seq<Service>, rest: seq<Service>)
    requires from + |page| <= |ranked| && page == ranked[from..from + |page|] && rest == ranked[from + |page|..]
    ensures page + rest == ranked[from..]
  {
  }

  lemma {:induction false} FollowFrom(ranked: seq<Service>, from: nat, limit: nat)
    requires Ranked(ranked) && from <= |ranked| && limit >= 1 && Positive(ranked)
    ensures Follow(ranked, from, limit) == ranked[from..]
    decreases |ranked| - from
  {
    NextPageStarts(ranked, from, limit);
    var page := Cut(ranked, from, limit);
    if page.next != "" { FollowFrom(ranked, from + limit, limit); }
    PageThenRest(ranked, from, page.items, if page.next == "" then [] else Follow(ranked, from + limit, limit));
  }

  /** Over a fixed catalogue the pages concatenate to the whole listing. */
  lemma PagesGiveListing(items: seq<Service>, f: Filter, matches: Service -> bool, limit: nat)
    requires Catalogue(items) && limit >= 1
    ensures Ranked(Listing(items, f, matches)) && Positive(Listing(items, f, matches))
    ensures Skip(Listing(items, f, matches), ReadCursor("")) == 0
    ensures Follow(Listing(items, f, matches), 0, limit) == Listing(items, f, matches)
  {
    KeepIsCatalogue(items, f, matches);
    RankedPositive(Keep(items, f, matches));
    FollowFrom(Listing(items, f, matches), 0, limit);
  }

  // ----------------------------------------------------------------- loading the catalogue

  /** A published row, its statistics and its provider as the source answers for one page. */
  datatype SourceRow = SourceRow(published: bool, seller: Int64, statisticsOk: bool, providerKnown: bool,
                                 service: Service)

  datatype SourcePage = SourceError | SourcePage(rows: seq<SourceRow>, next: Int64)

  const SOURCE_PAGE: nat := 100

  /** The ids read so far are positive 64-bit integers, so there is room for only so many. */
  lemma {:induction false} RoomForIds(seen: set<int>, top: nat)
    requires forall id <- seen :: 0 < id <= top
    ensures |seen| <= top
    decreases top
  {
    if top > 0 {
      RoomForIds(seen - {top}, top - 1);
      assert |seen - {top}| >= |seen| - 1;
    } else {
      assert seen == {} by { if seen != {} { var x := AnyMember(seen); } }
    }
  }

  ghost predicate Known(items: seq<Service>, seen: set<int>) {
    Catalogue(items) && forall i | 0 <= i < |items| :: items[i].id in seen
  }

  /** The checks and the two loops over one source page; None on a page the handler rejects. */
  method ReadPage(rows: seq<SourceRow>, items0: seq<Service>, seen0: set<int>)
    returns (r: Option<seq<Service>>, seen: set<int>)
    requires Known(items0, seen0) && forall id <- seen0 :: 0 < id <= MAX_INT64
    ensures r.Some? ==> && Known(r.value, seen) && (forall id <- seen :: 0 < id <= MAX_INT64)
                        && |seen| == |seen0| + |rows| && r.value == items0 + Taken(rows)
  {
    seen := seen0;
    var items := items0;
    for i := 0 to |rows|
      invariant Known(items, seen) && (forall id <- seen :: 0 < id <= MAX_INT64)
      invariant |seen| == |seen0| + i && items == items0 + Taken(rows[..i])
    {
      var row := rows[i];
      assert rows[..i + 1][..i] == rows[..i];
      if !row.published || row.service.id <= 0 || row.seller <= 0 || row.service.id in seen { return None, seen; }
      if !row.statisticsOk || row.service.completed < 0 || row.service.averageDelivery < 0 || row.service.rating < 0
          || row.service.rating > 5000 {
        return None, seen;
      }
      seen := seen + {row.service.id};
      if row.providerKnown {
        AppendCatalogue(items, row.service);
        items := items + [row.service];
      }
    }
    assert rows[..|rows|] == rows;
    return Some(items), seen;
  }

  /** The rows of a source page that the catalogue takes over. */
  function Taken(rows: seq<SourceRow>): seq<Service> {
    if rows == [] then []
    else
      var front := Taken(rows[..|rows| - 1]);
      if rows[|rows| - 1].providerKnown then front + [rows[|rows| - 1].service] else front
  }

  function TakenFrom(pages: seq<SourcePage>): seq<Service> {
    if pages == [] then []
    else TakenFrom(pages[..|pages| - 1]) + if pages[|pages| - 1].SourcePage? then Taken(pages[|pages| - 1].rows) else []
  }

  /** The pages are what the source answered, each asked for with the cursor of the one before. */
  ghost predicate Asked(source: (nat, int) -> SourcePage, pages: seq<SourcePage>) {
    forall i {:trigger AskedAt(source, pages, i)} | 0 <= i < |pages| :: AskedAt(source, pages, i)
  }

  ghost predicate AskedAt(source: (nat, int) -> SourcePage, pages: seq<SourcePage>, i: nat)
    requires i < |pages|
  {
    pages[i].SourcePage? && pages[i] == source(i, if i == 0 then 0 else PageCursor(pages[i - 1]))
  }

  function PageCursor(page: SourcePage): int {
    if page.SourcePage? then page.next else 0
  }

  /** The items of all pages from the first to the one without a successor. */
  ghost predicate Loaded(source: (nat, int) -> SourcePage, items: seq<Service>) {
    exists pages: seq<SourcePage> ::
        Asked(source, pages) && pages != [] && PageCursor(pages[|pages| - 1]) == 0 && items == TakenFrom(pages)
  }

  lemma AskedMore(source: (nat, int) -> SourcePage, pages: seq<SourcePage>, page: SourcePage)
    requires Asked(source, pages) && page.SourcePage?
    requires page == source(|pages|, if pages == [] then 0 else PageCursor(pages[|pages| - 1]))
    ensures Asked(source, pages + [page])
  {
    forall i | 0 <= i < |pages + [page]| ensures AskedAt(source, pages + [page], i) {
      if i < |pages| {
        AskedAtPrefix(source, pages, page, i);
      }
    }
  }

  lemma AskedAtPrefix(source: (nat, int) -> SourcePage, pages: seq<SourcePage>, page: SourcePage, i: nat)
    requires Asked(source, pages) && i < |pages|
    ensures AskedAt(source, pages + [page], i)
  {
    assert AskedAt(source, pages, i);
  }

  lemma TakenMore(pages: seq<SourcePage>, page: SourcePage)
    requires page.SourcePage?
    ensures TakenFrom(pages + [page]) == TakenFrom(pages) + Taken(page.rows)
  {
    assert (pages + [page])[..|pages|] == pages;
  }

  /**
   loadMarketServices against any source, which may answer each call differently. It ends because
   every page that names a next one brings ids not seen before. A loaded result is a catalogue and
   holds every row of every page, up to the page without a successor.
   */
  method LoadServices(source: (nat, int) -> SourcePage) returns (r: Option<seq<Service>>)
    ensures r.Some? ==> Catalogue(r.value) && Loaded(source, r.value)
  {
    var items: seq<Service>, seen: set<int>, seenCursors: set<int>, cursor: Int64, calls: nat := [], {}, {0}, 0, 0;
    ghost var pages: seq<SourcePage> := [];
    while true
      invariant Known(items, seen) && (forall id <- seen :: 0 < id <= MAX_INT64)
      invariant Asked(source, pages) && |pages| == calls && items == TakenFrom(pages)
      invariant cursor == if calls == 0 then 0 else PageCursor(pages[calls - 1])
      decreases MAX_INT64 - |seen|
    {
      var page := source(calls, cursor);
      if page.SourceError? { return None; }
      if |page.rows| > SOURCE_PAGE || page.next < 0 || (page.next != 0
                                                        && (page.next in seenCursors || |page.rows| == 0)) {
        return None;
      }
      var read, more := ReadPage(page.rows, items, seen);
      if read.None? { return None; }
      AskedMore(source, pages, page);
      TakenMore(pages, page);
      items, seen, calls, pages := read.value, more, calls + 1, pages + [page];
      if page.next == 0 { return Some(items); }
      RoomForIds(seen, MAX_INT64);
      seenCursors, cursor := seenCursors + {page.next}, page.next;
    }
  }
}
