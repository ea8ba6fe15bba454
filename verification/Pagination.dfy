/** Keyset pagination: pages of rows in descending id order, each starting below the previous cursor. */
module Pagination {
  import opened Wrappers
  import opened Cursors

  /** The rows of a page, and the cursor of the next one. */
  datatype Page = Page(items: seq<RowId>, next: Option<string>)

  /** Above every row id: where the first page starts. */
  function Top(): nat {
    ID_LIMIT
  }

  predicate StrictlyDescending(s: seq<RowId>) {
    forall i, j :: 0 <= i < j < |s| ==> s[j] < s[i]
  }

  predicate IsMax(m: RowId, s: set<RowId>) {
    m in s && forall x: RowId :: x in s ==> x <= m
  }

  lemma MaxExists(s: set<RowId>)
    requires s != {}
    ensures exists m :: IsMax(m, s)
    decreases |s|
  {
    var a :| a in s;
    var rest := s - {a};
    assert forall x: RowId :: x in s ==> x == a || x in rest;
    if rest == {} {
      assert IsMax(a, s);
    } else {
      MaxExists(rest);
      var m :| IsMax(m, rest);
      assert IsMax(if a <= m then m else a, s);
    }
  }

  function MaxId(s: set<RowId>): (m: RowId)
    requires s != {}
    ensures IsMax(m, s)
  {
    MaxExists(s);
    var m :| m in s && IsMax(m, s);
    m
  }

  /** `ORDER BY id DESC`. */
  function Descending(s: set<RowId>): (r: seq<RowId>)
    ensures |r| == |s|
    decreases |s|
  {
    if s == {} then [] else [MaxId(s)] + Descending(s - {MaxId(s)})
  }

  lemma {:induction false} DescendingMembers(s: set<RowId>)
    ensures forall x: RowId :: x in Descending(s) <==> x in s
    decreases |s|
  {
    if s != {} {
      DescendingMembers(s - {MaxId(s)});
    }
  }

  lemma {:induction false} DescendingInOrder(s: set<RowId>)
    ensures StrictlyDescending(Descending(s))
    decreases |s|
  {
    if s != {} {
      var m := MaxId(s);
      DescendingInOrder(s - {m});
      RestBelow(s, m, Descending(s - {m}));
      HeadFirst(m, Descending(s - {m}));
    }
  }

  lemma RestBelow(s: set<RowId>, m: RowId, rest: seq<RowId>)
    requires IsMax(m, s) && rest == Descending(s - {m})
    ensures forall i :: 0 <= i < |rest| ==> rest[i] < m
  {
    DescendingMembers(s - {m});
    forall i | 0 <= i < |rest| ensures rest[i] < m {
      assert rest[i] in s - {m};
    }
  }

  /** The ids of a set, each once, in descending order. */
  ghost predicate IsListing(d: seq<RowId>, s: set<RowId>) {
    StrictlyDescending(d) && forall x: RowId :: x in d <==> x in s
  }

  lemma DescendingOrders(s: set<RowId>)
    ensures IsListing(Descending(s), s)
  {
    DescendingInOrder(s);
    DescendingMembers(s);
  }

  lemma HeadFirst(m: RowId, rest: seq<RowId>)
    requires StrictlyDescending(rest) && forall i :: 0 <= i < |rest| ==> rest[i] < m
    ensures StrictlyDescending([m] + rest)
  {
  }

  /** A set of ids is in descending order in one way only. */
  lemma {:induction false} ListingIsUnique(d: seq<RowId>, e: seq<RowId>, s: set<RowId>)
    requires IsListing(d, s) && IsListing(e, s)
    ensures d == e
  {
    if d == [] || e == [] {
      if d != [] {
        BothListed(d, e, s);
      } else if e != [] {
        BothListed(e, d, s);
      }
    } else {
      assert d[0] in s && e[0] in s;
      assert d[0] in e && e[0] in d;
      TailListing(d, s);
      TailListing(e, s);
      ListingIsUnique(d[1..], e[1..], s - {d[0]});
    }
  }

  lemma BothListed(d: seq<RowId>, e: seq<RowId>, s: set<RowId>)
    requires IsListing(d, s) && IsListing(e, s) && d != []
    ensures e != []
  {
    assert d[0] in d && d[0] in e;
  }

  lemma TailListing(d: seq<RowId>, s: set<RowId>)
    requires IsListing(d, s) && d != []
    ensures IsListing(d[1..], s - {d[0]})
  {
    assert d == [d[0]] + d[1..];
  }

  /** `WHERE id < cursor`. */
  function Below(rows: set<RowId>, bound: nat): set<RowId> {
    set x: RowId | x in rows && x < bound
  }

  function BoundOf(cursor: Option<string>): Result<nat, CursorError> {
    if cursor.None? then Ok(Top())
    else match DecodeCursor(cursor.value)
      case Ok(id) => Ok(id)
      case Err(e) => Err(e)
  }

  function Take(s: seq<RowId>, n: nat): seq<RowId> {
    if |s| <= n then s else s[..n]
  }

  /** The page made of the rows found: one row more than it holds tells whether there is a next page. */
  function PageFrom(found: seq<RowId>, limit: nat): Page {
    var items := Take(found, limit);
    Page(items, if |found| > limit && items != [] then Some(EncodeCursor(items[|items| - 1])) else None)
  }

  /** `list_project_conversations`. */
  function PageOf(rows: set<RowId>, cursor: Option<string>, limit: nat): Result<Page, CursorError> {
    match BoundOf(cursor)
    case Err(e) => Err(e)
    case Ok(bound) => Ok(PageFrom(Take(Descending(Below(rows, bound)), limit + 1), limit))
  }

  // ----- One page -------------------------------------------------------------------------------

  /** A page: rows of the table below the cursor, in order, with nothing between them left out. */
  ghost predicate PageSound(rows: set<RowId>, bound: nat, page: Page, limit: nat) {
    && StrictlyDescending(page.items)
    && |page.items| <= limit
    && (forall x :: x in page.items ==> x in rows && x < bound)
    && (page.next.None? ==> forall x :: x in rows && x < bound ==> x in page.items)
    && (page.next.Some? ==> |page.items| == limit > 0 && FullPageSound(rows, bound, page, page.items[limit - 1]))
  }

  /** A page that has a next one: it goes down to `last`, below which the next one starts and has rows. */
  ghost predicate FullPageSound(rows: set<RowId>, bound: nat, page: Page, last: RowId) {
    && BoundOf(page.next) == Ok(last)
    && (exists x :: x in rows && x < last)
    && (forall x :: x in page.items ==> last <= x)
    && (forall x :: x in rows && last <= x < bound ==> x in page.items)
  }

  lemma PageCut(found: seq<RowId>, limit: nat)
    requires limit > 0
    ensures var page := PageFrom(Take(found, limit + 1), limit);
            && page.items == Take(found, limit)
            && page.next == if |found| > limit then Some(EncodeCursor(found[limit - 1])) else None
  {
    assert |found| > limit ==> found[..limit + 1][..limit] == found[..limit];
  }

  lemma NextBound(id: RowId)
    ensures BoundOf(Some(EncodeCursor(id))) == Ok(id)
  {
    CursorRoundTrip(id);
  }

  lemma CutReaches(d: seq<RowId>, limit: nat, x: RowId)
    requires StrictlyDescending(d) && 0 < limit < |d| && x in d
    ensures x in d[..limit] <==> d[limit - 1] <= x
    ensures x in d[limit..] <==> x < d[limit - 1]
  {
    var i :| 0 <= i < |d| && d[i] == x;
    if i < limit {
      assert d[..limit][i] == x;
    } else {
      assert d[limit..][i - limit] == x;
    }
  }

  lemma CutIsSound(rows: set<RowId>, bound: nat, found: seq<RowId>, limit: nat)
    requires limit > 0 && IsListing(found, Below(rows, bound))
    ensures PageSound(rows, bound, PageFrom(Take(found, limit + 1), limit), limit)
  {
    PageCut(found, limit);
    if |found| > limit {
      NextBound(found[limit - 1]);
      FullPage(rows, bound, found, limit);
      assert found[limit] in found && found[limit] in Below(rows, bound) && found[limit] < found[limit - 1];
    }
  }

  lemma FullPage(rows: set<RowId>, bound: nat, found: seq<RowId>, limit: nat)
    requires 0 < limit < |found| && IsListing(found, Below(rows, bound))
    ensures forall x: RowId :: x in found[..limit] <==> x in rows && found[limit - 1] <= x < bound
  {
    var last := found[limit - 1];
    assert found == found[..limit] + found[limit..];
    forall x: RowId ensures x in found[..limit] <==> x in rows && last <= x < bound {
      assert x in found <==> x in Below(rows, bound);
      if x in found {
        CutReaches(found, limit, x);
      }
    }
  }

  /** Every page is sound: sorted, within the table and the cursor, and complete down to its last row. */
  lemma PageIsSound(rows: set<RowId>, cursor: Option<string>, limit: nat)
    requires limit > 0 && BoundOf(cursor).Ok?
    ensures PageOf(rows, cursor, limit).Ok?
    ensures PageSound(rows, BoundOf(cursor).value, PageOf(rows, cursor, limit).value, limit)
  {
    var bound := BoundOf(cursor).value;
    DescendingOrders(Below(rows, bound));
    CutIsSound(rows, bound, Descending(Below(rows, bound)), limit);
  }

  /** A cursor is refused exactly when it does not decode into the sixteen bytes of an id. */
  lemma BadCursorRefused(rows: set<RowId>, cursor: Option<string>, limit: nat)
    ensures PageOf(rows, cursor, limit).Err? <==>
              cursor.Some? && (var bytes := Decode(Repad(cursor.value), 0, 0, 0);
                               bytes.None? || |bytes.value| != 16)
  {
  }

  // ----- Following the cursors ------------------------------------------------------------------

  /** A client follows `next_cursor` to the end; the table may differ at every request. */
  ghost predicate Traversal(cursor: Option<string>, tables: seq<set<RowId>>, pages: seq<Page>, limit: nat)
    decreases |pages|
  {
    && |tables| == |pages| > 0
    && PageOf(tables[0], cursor, limit) == Ok(pages[0])
    && (if |pages| == 1 then pages[0].next.None?
        else pages[0].next.Some? && Traversal(pages[0].next, tables[1..], pages[1..], limit))
  }

  function Listed(pages: seq<Page>): seq<RowId> {
    if pages == [] then [] else pages[0].items + Listed(pages[1..])
  }

  /** In the table throughout the traversal. */
  ghost predicate LiveThroughout(x: RowId, tables: seq<set<RowId>>) {
    forall i :: 0 <= i < |tables| ==> x in tables[i]
  }

  lemma JoinDescending(a: seq<RowId>, b: seq<RowId>, mid: nat)
    requires StrictlyDescending(a) && StrictlyDescending(b)
    requires (forall x: RowId :: x in a ==> mid <= x) && (forall x: RowId :: x in b ==> x < mid)
    ensures StrictlyDescending(a + b)
  {
    forall i, j | 0 <= i < j < |a + b| ensures (a + b)[j] < (a + b)[i] {
      if i < |a| <= j {
        assert a[i] in a && b[j - |a|] in b;
      }
    }
  }

  /** The rows of each page were in the table when it was read. */
  ghost predicate ReadFrom(pages: seq<Page>, tables: seq<set<RowId>>)
    requires |pages| == |tables|
  {
    forall i, x: RowId :: 0 <= i < |pages| && x in pages[i].items ==> x in tables[i]
  }

  /** The rows listed: no two alike, all below the bound, and with every row that stays in the table. */
  ghost predicate ListedSoundly(rows: seq<RowId>, tables: seq<set<RowId>>, bound: nat) {
    && StrictlyDescending(rows)
    && (forall x :: x in rows ==> x < bound)
    && (forall x: RowId :: x < bound && LiveThroughout(x, tables) ==> x in rows)
  }

  lemma PrependPage(page: Page, rest: seq<RowId>, tables: seq<set<RowId>>, bound: nat, limit: nat)
    requires tables != [] && PageSound(tables[0], bound, page, limit) && page.next.Some?
    requires ListedSoundly(rest, tables[1..], page.items[limit - 1])
    ensures ListedSoundly(page.items + rest, tables, bound)
  {
    var last := page.items[limit - 1];
    assert last in page.items;
    JoinDescending(page.items, rest, last);
    forall x: RowId | x < bound && LiveThroughout(x, tables) ensures x in page.items + rest {
      assert x in tables[0] && LiveThroughout(x, tables[1..]);
    }
  }

  /**
   * Whatever is inserted or deleted between the requests: the rows listed are strictly descending, so
   * none is listed twice; each was in the table when its page was read; and every row that is in the
   * table throughout is listed.
   */
  lemma {:induction false} TraversalOfChangingTable(cursor: Option<string>, tables: seq<set<RowId>>,
      pages: seq<Page>, limit: nat)
    requires limit > 0 && Traversal(cursor, tables, pages, limit)
    ensures BoundOf(cursor).Ok? && ListedSoundly(Listed(pages), tables, BoundOf(cursor).value)
    ensures ReadFrom(pages, tables)
    decreases |pages|
  {
    PageIsSound(tables[0], cursor, limit);
    var bound := BoundOf(cursor).value;
    var page := pages[0];
    if |pages| == 1 {
      assert Listed(pages) == page.items;
      assert ListedSoundly(page.items, tables, bound) by {
        assert forall x: RowId :: LiveThroughout(x, tables) ==> x in tables[0];
      }
    } else {
      TraversalOfChangingTable(page.next, tables[1..], pages[1..], limit);
      PrependPage(page, Listed(pages[1..]), tables, bound, limit);
      ReadFromFirst(pages, tables);
    }
  }

  lemma ReadFromFirst(pages: seq<Page>, tables: seq<set<RowId>>)
    requires |pages| == |tables| > 0 && ReadFrom(pages[1..], tables[1..])
    requires forall x: RowId :: x in pages[0].items ==> x in tables[0]
    ensures ReadFrom(pages, tables)
  {
    forall i, x: RowId | 0 <= i < |pages| && x in pages[i].items ensures x in tables[i] {
      if i > 0 {
        assert pages[i] == pages[1..][i - 1] && tables[i] == tables[1..][i - 1];
      }
    }
  }

  /** The tables are those of consecutive requests, the first one at `from`. */
  ghost predicate Consecutive(read: seq<set<RowId>>, tables: nat -> set<RowId>, from: nat) {
    forall i :: 0 <= i < |read| ==> read[i] == tables(from + i)
  }

  lemma ConsecutiveFrom(rest: seq<set<RowId>>, tables: nat -> set<RowId>, from: nat)
    requires Consecutive(rest, tables, from + 1)
    ensures Consecutive([tables(from)] + rest, tables, from)
  {
  }

  /** The rows of so many full pages. */
  function RowsOf(pages: nat, limit: nat): nat {
    if pages == 0 then 0 else limit + RowsOf(pages - 1, limit)
  }

  lemma {:induction false} RowsOfIsProduct(pages: nat, limit: nat)
    ensures RowsOf(pages, limit) == pages * limit
  {
    if pages == 0 {
    } else {
      RowsOfIsProduct(pages - 1, limit);
      assert pages * limit == (pages - 1) * limit + limit;
    }
  }

  lemma LastTraversal(cursor: Option<string>, table: set<RowId>, page: Page, limit: nat)
    requires PageOf(table, cursor, limit) == Ok(page) && page.next.None?
    ensures Traversal(cursor, [table], [page], limit)
  {
  }

  lemma TraversalFrom(cursor: Option<string>, first: set<RowId>, rest: seq<set<RowId>>, page: Page, later: seq<Page>,
      limit: nat)
    requires PageOf(first, cursor, limit) == Ok(page) && page.next.Some?
    requires Traversal(page.next, rest, later, limit)
    ensures Traversal(cursor, [first] + rest, [page] + later, limit)
  {
    assert ([first] + rest)[1..] == rest && ([page] + later)[1..] == later;
  }

  /** A traversal of consecutive tables, with no more full pages than fit below the bound. */
  ghost predicate EndsWithin(cursor: Option<string>, tables: nat -> set<RowId>, from: nat, limit: nat, bound: nat,
      read: seq<set<RowId>>, pages: seq<Page>)
  {
    && Traversal(cursor, read, pages, limit)
    && Consecutive(read, tables, from)
    && RowsOf(|pages| - 1, limit) <= bound
  }

  lemma EndsNow(cursor: Option<string>, tables: nat -> set<RowId>, from: nat, limit: nat, bound: nat, page: Page)
    requires PageOf(tables(from), cursor, limit) == Ok(page) && page.next.None?
    ensures EndsWithin(cursor, tables, from, limit, bound, [tables(from)], [page])
  {
    LastTraversal(cursor, tables(from), page, limit);
  }

  lemma EndsLater(cursor: Option<string>, tables: nat -> set<RowId>, from: nat, limit: nat, bound: nat, page: Page,
      last: nat, read: seq<set<RowId>>, pages: seq<Page>)
    requires PageOf(tables(from), cursor, limit) == Ok(page) && page.next.Some? && last + limit <= bound
    requires EndsWithin(page.next, tables, from + 1, limit, last, read, pages)
    ensures EndsWithin(cursor, tables, from, limit, bound, [tables(from)] + read, [page] + pages)
  {
    TraversalFrom(cursor, tables(from), read, page, pages, limit);
    ConsecutiveFrom(read, tables, from);
  }

  lemma {:induction false} FollowingEnds(cursor: Option<string>, tables: nat -> set<RowId>, from: nat, limit: nat,
      bound: nat)
    returns (read: seq<set<RowId>>, pages: seq<Page>)
    requires limit > 0 && BoundOf(cursor) == Ok(bound)
    ensures EndsWithin(cursor, tables, from, limit, bound, read, pages)
    decreases bound
  {
    var page := BoundFalls(tables(from), cursor, limit, bound);
    if page.next.None? {
      EndsNow(cursor, tables, from, limit, bound, page);
      read, pages := [tables(from)], [page];
    } else {
      var last := BoundOf(page.next).value;
      var laterRead, laterPages := FollowingEnds(page.next, tables, from + 1, limit, last);
      EndsLater(cursor, tables, from, limit, bound, page, last, laterRead, laterPages);
      read, pages := [tables(from)] + laterRead, [page] + laterPages;
    }
  }

  /**
   * Whatever happens to the table, following the cursors comes to an end: the bound falls by at least
   * `limit` with every page, so there are at most as many full pages as fit below the first bound.
   */
  lemma TraversalEnds(cursor: Option<string>, tables: nat -> set<RowId>, limit: nat)
    returns (read: seq<set<RowId>>, pages: seq<Page>)
    requires limit > 0 && BoundOf(cursor).Ok?
    ensures Traversal(cursor, read, pages, limit) && Consecutive(read, tables, 0)
    ensures (|pages| - 1) * limit <= BoundOf(cursor).value
  {
    read, pages := FollowingEnds(cursor, tables, 0, limit, BoundOf(cursor).value);
    RowsOfIsProduct(|pages| - 1, limit);
  }

  lemma BoundFalls(rows: set<RowId>, cursor: Option<string>, limit: nat, bound: nat) returns (page: Page)
    requires limit > 0 && BoundOf(cursor) == Ok(bound)
    ensures PageOf(rows, cursor, limit) == Ok(page)
    ensures page.next.Some? ==> BoundOf(page.next).Ok? && BoundOf(page.next).value + limit <= bound
  {
    PageIsSound(rows, cursor, limit);
    page := PageOf(rows, cursor, limit).value;
    if page.next.Some? {
      SpreadBelow(page.items, bound);
    }
  }

  /** A strictly descending list of ids below a bound is no longer than the room above its last one. */
  lemma {:induction false} SpreadBelow(items: seq<RowId>, bound: nat)
    requires StrictlyDescending(items) && items != [] && forall x :: x in items ==> x < bound
    ensures items[|items| - 1] as int + |items| <= bound
  {
    var last := |items| - 1;
    assert items[last] in items;
    if last == 0 {
    } else {
      var init := items[..last];
      assert forall x :: x in init ==> x in items;
      SpreadBelow(init, bound);
      assert init[|init| - 1] == items[last - 1] > items[last];
    }
  }

  // ----- A table that does not change -----------------------------------------------------------

  function PagesNeeded(n: nat, limit: nat): nat
    requires limit > 0
  {
    if n <= limit then 1 else 1 + PagesNeeded(n - limit, limit)
  }

  /** `max(1, ceil(n / limit))`. */
  function PageCount(n: nat, limit: nat): nat
    requires limit > 0
  {
    if n == 0 then 1 else (n + limit - 1) / limit
  }

  lemma DivStep(n: int, limit: int)
    requires limit > 0
    ensures n / limit == 1 + (n - limit) / limit
  {
    var q, r := n / limit, n % limit;
    assert n - limit == (q - 1) * limit + r;
    DivUnique(n - limit, limit, q - 1, r);
  }

  lemma AtLeastOne(a: int, d: int)
    requires d > 0 && a > 0
    ensures a * d >= d
  {
  }

  lemma Uniqueness(d: int, q: int, r: int, q': int, r': int)
    requires d > 0 && q * d + r == q' * d + r' && 0 <= r < d && 0 <= r' < d
    ensures q == q'
  {
    assert (q - q') * d == r' - r;
    if q > q' {
      AtLeastOne(q - q', d);
    } else if q < q' {
      AtLeastOne(q' - q, d);
    }
  }

  lemma DivUnique(n: int, d: int, q: int, r: int)
    requires d > 0 && n == q * d + r && 0 <= r < d
    ensures n / d == q
  {
    Uniqueness(d, q, r, n / d, n % d);
  }

  /** The number of pages is n over limit, rounded up, but at least one. */
  lemma {:induction false} PagesNeededIsCeiling(n: nat, limit: nat)
    requires limit > 0
    ensures PagesNeeded(n, limit) == PageCount(n, limit)
  {
    if n > limit {
      PagesNeededIsCeiling(n - limit, limit);
      DivStep(n + limit - 1, limit);
    } else if n > 0 {
      DivUnique(n + limit - 1, limit, 1, n - 1);
    }
  }

  lemma RestIsListing(rows: set<RowId>, bound: nat, found: seq<RowId>, limit: nat)
    requires 0 < limit < |found| && IsListing(found, Below(rows, bound))
    ensures IsListing(found[limit..], Below(rows, found[limit - 1]))
  {
    var last := found[limit - 1];
    assert found == found[..limit] + found[limit..];
    assert last in found && last in Below(rows, bound);
    forall x: RowId ensures x in found[limit..] <==> x in Below(rows, last) {
      assert x in found <==> x in Below(rows, bound);
      if x in found {
        CutReaches(found, limit, x);
      }
    }
  }

  /** What is below the last row of a full page is what the page leaves out. */
  lemma BelowLast(rows: set<RowId>, bound: nat, limit: nat)
    requires 0 < limit < |Descending(Below(rows, bound))|
    ensures var d := Descending(Below(rows, bound)); Descending(Below(rows, d[limit - 1])) == d[limit..]
  {
    var d := Descending(Below(rows, bound));
    var later := Below(rows, d[limit - 1]);
    DescendingOrders(Below(rows, bound));
    DescendingOrders(later);
    RestIsListing(rows, bound, d, limit);
    ListingIsUnique(Descending(later), d[limit..], later);
  }

  ghost predicate Unchanging(rows: set<RowId>, tables: seq<set<RowId>>) {
    forall i :: 0 <= i < |tables| ==> tables[i] == rows
  }

  lemma FirstPage(cursor: Option<string>, rows: set<RowId>, bound: nat, limit: nat, page: Page, found: seq<RowId>)
    requires limit > 0 && BoundOf(cursor) == Ok(bound) && found == Descending(Below(rows, bound))
    requires PageOf(rows, cursor, limit) == Ok(page)
    ensures page.items == Take(found, limit)
    ensures page.next.None? <==> |found| <= limit
    ensures |found| > limit ==> BoundOf(page.next) == Ok(found[limit - 1])
  {
    PageCut(found, limit);
    if |found| > limit {
      NextBound(found[limit - 1]);
    }
  }

  /** The rows found, cut every `limit` rows. */
  ghost predicate Cut(found: seq<RowId>, pages: seq<Page>, limit: nat)
    requires limit > 0
    decreases |pages|
  {
    && pages != []
    && pages[0].items == Take(found, limit)
    && (if |found| <= limit then |pages| == 1 else Cut(found[limit..], pages[1..], limit))
  }

  lemma {:induction false} CutLists(found: seq<RowId>, pages: seq<Page>, limit: nat)
    requires limit > 0 && Cut(found, pages, limit)
    ensures Listed(pages) == found && |pages| == PagesNeeded(|found|, limit)
    decreases |pages|
  {
    if |found| <= limit {
      assert Listed(pages[1..]) == [] && found + [] == found;
    } else {
      CutLists(found[limit..], pages[1..], limit);
      assert found == found[..limit] + found[limit..];
    }
  }

  lemma {:induction false} FixedTable(cursor: Option<string>, rows: set<RowId>, bound: nat, tables: seq<set<RowId>>,
      pages: seq<Page>, limit: nat)
    requires limit > 0 && Traversal(cursor, tables, pages, limit) && Unchanging(rows, tables)
    requires BoundOf(cursor) == Ok(bound)
    ensures Cut(Descending(Below(rows, bound)), pages, limit)
    decreases |pages|
  {
    var found := Descending(Below(rows, bound));
    assert tables[0] == rows;
    FirstPage(cursor, rows, bound, limit, pages[0], found);
    if |pages| > 1 {
      BelowLast(rows, bound, limit);
      UnchangingLater(rows, tables);
      FixedTable(pages[0].next, rows, found[limit - 1], tables[1..], pages[1..], limit);
    }
  }

  lemma UnchangingLater(rows: set<RowId>, tables: seq<set<RowId>>)
    requires Unchanging(rows, tables) && tables != []
    ensures Unchanging(rows, tables[1..])
  {
  }

  /** The pages of a table that does not change are its rows in descending order, cut every `limit` rows. */
  lemma TraversalOfFixedTable(cursor: Option<string>, rows: set<RowId>, tables: seq<set<RowId>>, pages: seq<Page>,
      limit: nat)
    requires limit > 0 && Traversal(cursor, tables, pages, limit) && Unchanging(rows, tables)
    ensures BoundOf(cursor).Ok?
    ensures Listed(pages) == Descending(Below(rows, BoundOf(cursor).value))
    ensures |pages| == PagesNeeded(|Below(rows, BoundOf(cursor).value)|, limit)
  {
    var bound := BoundOf(cursor).value;
    FixedTable(cursor, rows, bound, tables, pages, limit);
    CutLists(Descending(Below(rows, bound)), pages, limit);
  }

  /** From the first page on: every row once, in descending order, in max(1, ceil(n / limit)) pages. */
  lemma FullListing(rows: set<RowId>, tables: seq<set<RowId>>, pages: seq<Page>, limit: nat)
    requires limit > 0 && Traversal(None, tables, pages, limit) && Unchanging(rows, tables)
    ensures IsListing(Listed(pages), rows)
    ensures |pages| == PageCount(|rows|, limit)
  {
    TraversalOfFixedTable(None, rows, tables, pages, limit);
    BelowTop(rows);
    DescendingOrders(rows);
    PagesNeededIsCeiling(|rows|, limit);
  }

  lemma BelowTop(rows: set<RowId>)
    ensures Below(rows, Top()) == rows
  {
  }

  /** Following the cursors of a table that does not change does come to an end. */
  lemma {:induction false} TraversalExists(cursor: Option<string>, rows: set<RowId>, limit: nat)
    returns (tables: seq<set<RowId>>, pages: seq<Page>)
    requires limit > 0 && BoundOf(cursor).Ok?
    ensures Traversal(cursor, tables, pages, limit) && Unchanging(rows, tables)
    decreases |Below(rows, BoundOf(cursor).value)|
  {
    var bound := BoundOf(cursor).value;
    var page := PageOf(rows, cursor, limit).value;
    var found := Descending(Below(rows, bound));
    FirstPage(cursor, rows, bound, limit, page, found);
    if page.next.None? {
      tables, pages := [rows], [page];
    } else {
      BelowLast(rows, bound, limit);
      var laterTables, laterPages := TraversalExists(page.next, rows, limit);
      tables, pages := [rows] + laterTables, [page] + laterPages;
      assert tables[1..] == laterTables && pages[1..] == laterPages;
    }
  }
}
