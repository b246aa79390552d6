/**
 * internal/query/queries.go: newest-first pages over a filtered table, and what a client sees
 * that follows next_cursor until it is empty.
 */
module Paging {
  import opened Basics
  import opened Base64
  import opened Timestamp
  import opened Cursor
  import opened Conditions

  /** Which columns a list is ordered by. */
  datatype Order = Order(tsCol: Column, idCol: Column)

  const PAYMENTS := Order("created_at", "payment_hash")
  const CHANNELS := Order("opened_at", "channel_id")
  const EVENTS := Order("occurred_at", "id")

  /** A row with a usable position: a timestamp in years 0001 to 9999 and a non-empty id. */
  predicate Positioned(row: Row, o: Order) {
    && Get(row, o.tsCol).TimeValue? && 0 <= Get(row, o.tsCol).at < YEAR_10000
    && Get(row, o.idCol).TextValue? && Get(row, o.idCol).text != []
  }

  /** The position of a row, which is also the cursor that points at it. */
  function Key(row: Row, o: Order): Cursor
    requires Positioned(row, o)
  {
    Cursor(Get(row, o.tsCol).at, Get(row, o.idCol).text)
  }

  predicate KeyLess(a: Cursor, b: Cursor) {
    a.time < b.time || (a.time == b.time && TextLess(a.id, b.id))
  }

  /** A table as the list endpoints need it: every row positioned, ids unique. */
  ghost predicate Table(rows: set<Row>, o: Order) {
    && (forall r :: r in rows ==> Positioned(r, o))
    && forall r, q :: r in rows && q in rows && Get(r, o.idCol) == Get(q, o.idCol) ==> r == q
  }

  // ---- the order on keys is total ----

  lemma {:induction false} KeyOrder(a: Cursor, b: Cursor, c: Cursor)
    ensures !KeyLess(a, a)
    ensures KeyLess(a, b) || a == b || KeyLess(b, a)
    ensures !(KeyLess(a, b) && KeyLess(b, a))
    ensures KeyLess(a, b) && KeyLess(b, c) ==> KeyLess(a, c)
  {
    TextOrder(a.id, b.id, c.id);
  }

  /** Row a is listed before row b. */
  predicate Newer(a: Row, b: Row, o: Order) {
    Positioned(a, o) && Positioned(b, o) && KeyLess(Key(b, o), Key(a, o))
  }

  lemma {:induction false} NewerIsTransitive(a: Row, b: Row, c: Row, o: Order)
    requires Newer(a, b, o) && Newer(b, c, o)
    ensures Newer(a, c, o)
  {
    KeyOrder(Key(c, o), Key(b, o), Key(a, o));
  }

  lemma {:induction false} NewerIsTotal(rows: set<Row>, a: Row, b: Row, o: Order)
    requires Table(rows, o) && a in rows && b in rows
    ensures Newer(a, b, o) || a == b || Newer(b, a, o)
    ensures !Newer(a, a, o) && !(Newer(a, b, o) && Newer(b, a, o))
  {
    KeyOrder(Key(a, o), Key(b, o), Key(a, o));
  }

  // ---- one page ----

  datatype Page = Page(items: seq<Row>, next: string)

  function ClampLimit(n: int): (r: nat)
    ensures 1 <= r <= 200
    ensures n <= 0 ==> r == 50
    ensures 1 <= n <= 200 ==> r == n
    ensures n > 200 ==> r == 200
  {
    if n <= 0 then 50 else if n > 200 then 200 else n
  }

  /** Trims an over-fetched slice and derives the next cursor from the last kept row. */
  function Paginate(items: seq<Row>, limit: nat, o: Order): Page
  {
    if |items| > limit then Page(items[..limit], EncodeCursor(LastKey(items[..limit], o))) else Page(items, "")
  }

  ghost predicate Descending(items: seq<Row>, o: Order) {
    forall i, j :: 0 <= i < j < |items| ==> Newer(items[i], items[j], o)
  }

  /** Everything listed comes before everything left out. */
  ghost predicate Above(items: seq<Row>, rest: set<Row>, o: Order) {
    forall r, q :: r in items && q in rest ==> Newer(r, q, o)
  }

  /** The first `n` of a table in newest-first order. */
  ghost predicate Newest(rows: set<Row>, n: nat, items: seq<Row>, o: Order) {
    && ToSet(items) <= rows
    && |items| == Min(n, |rows|)
    && Descending(items, o)
    && Above(items, rows - ToSet(items), o)
  }

  /** The rows of a filtered table that come after a cursor. */
  ghost function Remaining(rows: set<Row>, cur: Cursor, o: Order): set<Row> {
    set r | r in rows && PastCursor(r, o.tsCol, o.idCol, cur)
  }

  /** The page a client is entitled to: the newest rows past its cursor, and a way on iff more remain. */
  ghost predicate IsPage(rows: set<Row>, cur: Cursor, limit: nat, page: Page, o: Order)
  {
    var rest := Remaining(rows, cur, o);
    && Newest(rest, limit, page.items, o)
    && page.next == if |rest| > limit then EncodeCursor(LastKey(page.items, o)) else ""
  }

  /** The position of the last row of a page, as a cursor. */
  function LastKey(items: seq<Row>, o: Order): (c: Cursor)
    ensures c.time >= 0
  {
    if items == [] || !Positioned(items[|items| - 1], o) then START else Key(items[|items| - 1], o)
  }

  lemma {:induction false} NewestGrows(rows: set<Row>, items: seq<Row>, rest: set<Row>, top: Row, o: Order)
    requires top in rest && ToSet(items) !! rest && Descending(items, o) && Above(items, rest, o)
    requires forall r :: r in rest && r != top ==> Newer(top, r, o)
    ensures ToSet(items + [top]) == ToSet(items) + {top}
    ensures Descending(items + [top], o) && Above(items + [top], rest - {top}, o)
  {
  }

  /** SELECT ... WHERE ... ORDER BY ts DESC, id DESC LIMIT n. */
  method Fetch(rows: set<Row>, n: nat, o: Order) returns (items: seq<Row>)
    requires Table(rows, o)
    ensures Newest(rows, n, items, o)
  {
    items := [];
    var rest := rows;
    while |items| < n && rest != {}
      invariant rest <= rows && ToSet(items) == rows - rest && |items| == |rows| - |rest| && |items| <= n
      invariant Descending(items, o) && Above(items, rest, o)
      decreases |rest|
    {
      var top := Latest(rest, o);
      NewestGrows(rows, items, rest, top, o);
      items, rest := items + [top], rest - {top};
    }
    assert rows - ToSet(items) == rest;
  }

  method Latest(rows: set<Row>, o: Order) returns (top: Row)
    requires rows != {} && Table(rows, o)
    ensures top in rows && forall r :: r in rows && r != top ==> Newer(top, r, o)
  {
    top :| top in rows;
    var rest := rows - {top};
    while rest != {}
      invariant top in rows && rest <= rows
      invariant forall r :: r in rows - rest && r != top ==> Newer(top, r, o)
      decreases |rest|
    {
      var r :| r in rest;
      NewerIsTotal(rows, top, r, o);
      if Newer(r, top, o) {
        forall q | q in rows - rest && q != top ensures Newer(r, q, o) {
          NewerIsTransitive(r, top, q, o);
        }
        top := r;
      }
      rest := rest - {r};
    }
  }

  lemma {:induction false} PaginateMakesPage(rows: set<Row>, cur: Cursor, limit: nat, items: seq<Row>, o: Order)
    requires Newest(Remaining(rows, cur, o), limit + 1, items, o)
    ensures IsPage(rows, cur, limit, Paginate(items, limit, o), o)
  {
    var rest := Remaining(rows, cur, o);
    if |items| > limit {
      var kept, last := items[..limit], items[limit];
      assert items == kept + [last];
      assert ToSet(items) == ToSet(kept) + {last};
      forall r, q | r in kept && q in rest - ToSet(kept) ensures Newer(r, q, o) {
        if q == last {
          var i :| 0 <= i < |kept| && kept[i] == r;
          assert items[i] == r && items[limit] == q;
        } else {
          assert r in items && q in rest - ToSet(items);
        }
      }
    }
  }

  // ---- the three list queries ----

  ghost function PaymentsMatching(table: set<Row>, f: PaymentFilter): set<Row> {
    set r | r in table && PaymentMatches(f, r)
  }

  ghost function ChannelsMatching(table: set<Row>, f: ChannelFilter): set<Row> {
    set r | r in table && ChannelMatches(f, r)
  }

  ghost function EventsMatching(table: set<Row>, f: EventFilter): set<Row> {
    set r | r in table && EventMatches(f, r)
  }

  /** The rows the compiled conditions select. */
  function Selected(table: set<Row>, b: Built): set<Row>
    requires Numbered(b)
  {
    set r | r in table && Selects(b, r)
  }

  method CompilePayments(f: PaymentFilter, cur: Cursor) returns (b: Built)
    ensures b == PaymentConds(f, cur)
  {
    var c := new Conds();
    c.Eq("direction", f.direction);
    c.Eq("status", f.status);
    c.Eq("asset", f.asset);
    c.Eq("peer", f.peer);
    c.TsRange("created_at", f.from, f.to);
    c.Keyset("created_at", "payment_hash", cur);
    return Built(c.conds, c.args);
  }

  method CompileChannels(f: ChannelFilter, cur: Cursor) returns (b: Built)
    ensures b == ChannelConds(f, cur)
  {
    var c := new Conds();
    c.Eq("state", f.state);
    c.Eq("peer", f.peer);
    c.Keyset("opened_at", "channel_id", cur);
    return Built(c.conds, c.args);
  }

  method CompileEvents(f: EventFilter, cur: Cursor) returns (b: Built)
    ensures b == EventConds(f, cur)
  {
    var c := new Conds();
    c.Eq("type", f.kind);
    c.TsRange("occurred_at", f.from, f.to);
    c.Keyset("occurred_at", "id", cur);
    return Built(c.conds, c.args);
  }

  /** Runs a compiled query, over-fetching by one; `matching` is what its filter means. */
  method List(table: set<Row>, b: Built, ghost matching: set<Row>, cur: Cursor, limit: int, o: Order)
      returns (page: Page)
    requires Table(table, o) && Numbered(b)
    requires Selected(table, b) == Remaining(matching, cur, o)
    ensures IsPage(matching, cur, ClampLimit(limit), page, o)
  {
    var n := ClampLimit(limit);
    var fetched := Fetch(Selected(table, b), n + 1, o);
    var items: seq<Row> := [];
    for i := 0 to |fetched|
      invariant items == fetched[..i]
    {
      items := items + [fetched[i]];
    }
    PaginateMakesPage(matching, cur, n, items, o);
    page := Paginate(items, n, o);
  }

  method Payments(table: set<Row>, f: PaymentFilter, cur: Cursor, limit: int) returns (page: Page)
    requires Table(table, PAYMENTS)
    ensures IsPage(PaymentsMatching(table, f), cur, ClampLimit(limit), page, PAYMENTS)
  {
    var b := CompilePayments(f, cur);
    PaymentConditionsMean(f, cur);
    assert MeansPayments(b, f, cur, map[]);
    assert forall row :: row in table ==> MeansPayments(b, f, cur, row);
    assert Selected(table, b) == Remaining(PaymentsMatching(table, f), cur, PAYMENTS);
    page := List(table, b, PaymentsMatching(table, f), cur, limit, PAYMENTS);
  }

  method Channels(table: set<Row>, f: ChannelFilter, cur: Cursor, limit: int) returns (page: Page)
    requires Table(table, CHANNELS)
    ensures IsPage(ChannelsMatching(table, f), cur, ClampLimit(limit), page, CHANNELS)
  {
    var b := CompileChannels(f, cur);
    ChannelConditionsMean(f, cur);
    assert MeansChannels(b, f, cur, map[]);
    assert forall row :: row in table ==> MeansChannels(b, f, cur, row);
    assert Selected(table, b) == Remaining(ChannelsMatching(table, f), cur, CHANNELS);
    page := List(table, b, ChannelsMatching(table, f), cur, limit, CHANNELS);
  }

  method Events(table: set<Row>, f: EventFilter, cur: Cursor, limit: int) returns (page: Page)
    requires Table(table, EVENTS)
    ensures IsPage(EventsMatching(table, f), cur, ClampLimit(limit), page, EVENTS)
  {
    var b := CompileEvents(f, cur);
    EventConditionsMean(f, cur);
    assert MeansEvents(b, f, cur, map[]);
    assert forall row :: row in table ==> MeansEvents(b, f, cur, row);
    assert Selected(table, b) == Remaining(EventsMatching(table, f), cur, EVENTS);
    page := List(table, b, EventsMatching(table, f), cur, limit, EVENTS);
  }
}
