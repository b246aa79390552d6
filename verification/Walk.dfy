/** Following next_cursor from the first page on, while the table may change between fetches. */
module Walk {
  import opened Basics
  import opened Base64
  import opened Timestamp
  import opened Cursor
  import C = Cursor
  import opened Conditions
  import opened Paging

  /** One fetch: the filtered table as it then was, the decoded start position, the rows returned. */
  datatype Leg = Leg(table: set<Row>, cur: Cursor, items: seq<Row>)

  ghost predicate IsLeg(g: Leg, limit: nat, o: Order) {
    Table(g.table, o) && Newest(Remaining(g.table, g.cur, o), limit, g.items, o)
  }

  ghost predicate More(g: Leg, limit: nat, o: Order) {
    |Remaining(g.table, g.cur, o)| > limit
  }

  /** Fetches that each start where the previous one stopped, as long as there was more. */
  ghost predicate Trip(legs: seq<Leg>, limit: nat, o: Order)
    decreases |legs|
  {
    && legs != [] && IsLeg(legs[0], limit, o)
    && (|legs| > 1 ==>
          More(legs[0], limit, o) && legs[1].cur == LastKey(legs[0].items, o) && Trip(legs[1..], limit, o))
  }

  ghost predicate Done(legs: seq<Leg>, limit: nat, o: Order) {
    legs != [] && !More(legs[|legs| - 1], limit, o)
  }

  function Listed(legs: seq<Leg>): seq<Row> {
    if legs == [] then [] else legs[0].items + Listed(legs[1..])
  }

  // ---- one leg ----

  lemma {:induction false} PastMeansOlder(r: Row, cur: Cursor, o: Order)
    requires Positioned(r, o) && !IsZero(cur)
    ensures PastCursor(r, o.tsCol, o.idCol, cur) <==> KeyLess(Key(r, o), cur)
  {
  }

  /** What follows an earlier position follows a later one all the more. */
  lemma {:induction false} PastIsTransitive(r: Row, q: Row, cur: Cursor, o: Order)
    requires PastCursor(q, o.tsCol, o.idCol, cur) && Newer(q, r, o)
    ensures PastCursor(r, o.tsCol, o.idCol, cur)
  {
    if !IsZero(cur) {
      PastMeansOlder(q, cur, o);
      PastMeansOlder(r, cur, o);
      KeyOrder(Key(r, o), Key(q, o), cur);
    }
  }

  /** Position `last` separates the rows newer than it from those the next leg starts with. */
  lemma {:induction false} PastRow(r: Row, last: Row, o: Order)
    requires Positioned(r, o) && Positioned(last, o)
    ensures !IsZero(Key(last, o))
    ensures PastCursor(r, o.tsCol, o.idCol, Key(last, o)) <==> Newer(last, r, o)
  {
    PastMeansOlder(r, Key(last, o), o);
  }

  lemma {:induction false} LegItems(g: Leg, limit: nat, o: Order)
    requires IsLeg(g, limit, o)
    ensures forall r :: r in g.items ==>
      r in g.table && Positioned(r, o) && PastCursor(r, o.tsCol, o.idCol, g.cur)
    ensures More(g, limit, o) ==> |g.items| == limit
    ensures NoDuplicates(g.items)
  {
    forall r | r in g.items ensures r in Remaining(g.table, g.cur, o) {
      assert r in ToSet(g.items);
    }
    DistinctByOrder(g.items, o);
  }

  lemma {:induction false} LastOfLeg(g: Leg, limit: nat, o: Order) returns (last: Row)
    requires limit >= 1 && IsLeg(g, limit, o) && More(g, limit, o)
    ensures |g.items| == limit && last == g.items[limit - 1] && last in g.items && last in g.table
    ensures Positioned(last, o) && LastKey(g.items, o) == Key(last, o)
    ensures PastCursor(last, o.tsCol, o.idCol, g.cur)
  {
    LegItems(g, limit, o);
    last := g.items[limit - 1];
  }

  lemma {:induction false} DistinctByOrder(items: seq<Row>, o: Order)
    requires Descending(items, o)
    ensures NoDuplicates(items)
  {
    forall i, j | 0 <= i < j < |items| ensures items[i] != items[j] {
      assert Newer(items[i], items[j], o);
      KeyOrder(Key(items[i], o), Key(items[i], o), Key(items[i], o));
    }
  }

  /** A leg with nothing more lists everything that remained. */
  lemma {:induction false} AllListed(rows: set<Row>, limit: nat, items: seq<Row>, o: Order)
    requires Newest(rows, limit, items, o) && |rows| <= limit
    ensures ToSet(items) == rows
  {
    DistinctByOrder(items, o);
    SetOfDistinct(items);
    assert rows == ToSet(items) + (rows - ToSet(items));
    assert |rows| == |ToSet(items)| + |rows - ToSet(items)|;
  }

  // ---- stability ----

  lemma {:induction false} TripDescends(legs: seq<Leg>, limit: nat, o: Order)
    requires limit >= 1 && Trip(legs, limit, o)
    ensures Descending(Listed(legs), o)
    ensures forall r :: r in Listed(legs) ==> Positioned(r, o) && PastCursor(r, o.tsCol, o.idCol, legs[0].cur)
    decreases |legs|
  {
    var g := legs[0];
    LegItems(g, limit, o);
    if |legs| > 1 {
      var last := LastOfLeg(g, limit, o);
      var rest := Listed(legs[1..]);
      TripDescends(legs[1..], limit, o);
      forall r | r in rest ensures Newer(last, r, o) && PastCursor(r, o.tsCol, o.idCol, g.cur) {
        PastRow(r, last, o);
        PastIsTransitive(r, last, g.cur, o);
      }
      AppendBelow(g.items, last, rest, o);
    } else {
      assert Listed(legs) == g.items;
    }
  }

  lemma {:induction false} AppendBelow(items: seq<Row>, last: Row, rest: seq<Row>, o: Order)
    requires items != [] && last == items[|items| - 1] && Descending(items, o) && Descending(rest, o)
    requires forall r :: r in rest ==> Newer(last, r, o)
    ensures Descending(items + rest, o)
  {
    var all := items + rest;
    forall i, j | 0 <= i < j < |all| ensures Newer(all[i], all[j], o) {
      if i < |items| <= j {
        assert Newer(last, rest[j - |items|], o);
        if i < |items| - 1 {
          assert Newer(items[i], items[|items| - 1], o);
          NewerIsTransitive(items[i], last, rest[j - |items|], o);
        }
      } else if i >= |items| {
        assert Newer(rest[i - |items|], rest[j - |items|], o);
      }
    }
  }

  ghost predicate Holds(rows: set<Row>, k: Cursor, o: Order) {
    exists r :: r in rows && Positioned(r, o) && Key(r, o) == k
  }

  ghost predicate ListedAt(legs: seq<Leg>, i: nat, k: Cursor, o: Order) {
    i < |Listed(legs)| && Positioned(Listed(legs)[i], o) && Key(Listed(legs)[i], o) == k
  }

  /** A row occupies position k at every fetch. */
  ghost predicate HeldThroughout(tables: seq<set<Row>>, k: Cursor, o: Order) {
    forall j :: 0 <= j < |tables| ==> Holds(tables[j], k, o)
  }

  ghost predicate ListedOnce(legs: seq<Leg>, k: Cursor, o: Order) {
    exists i: nat :: ListedAt(legs, i, k, o) && forall j: nat :: ListedAt(legs, j, k, o) ==> j == i
  }

  /** The row at a position that the leg's cursor has not passed is still to come. */
  lemma {:induction false} RowAt(g: Leg, o: Order, k: Cursor) returns (r: Row)
    requires Holds(g.table, k, o) && (IsZero(g.cur) || KeyLess(k, g.cur))
    ensures r in g.table && Positioned(r, o) && Key(r, o) == k && r in Remaining(g.table, g.cur, o)
  {
    r :| r in g.table && Positioned(r, o) && Key(r, o) == k;
    if !IsZero(g.cur) {
      PastMeansOlder(r, g.cur, o);
    }
  }

  lemma {:induction false} PresentIsListed(legs: seq<Leg>, limit: nat, o: Order, k: Cursor) returns (i: nat)
    requires limit >= 1 && Trip(legs, limit, o) && Done(legs, limit, o)
    requires forall j :: 0 <= j < |legs| ==> Holds(legs[j].table, k, o)
    requires IsZero(legs[0].cur) || KeyLess(k, legs[0].cur)
    ensures ListedAt(legs, i, k, o)
    decreases |legs|
  {
    var g := legs[0];
    assert Holds(g.table, k, o);
    var r := RowAt(g, o, k);
    var here := Remaining(g.table, g.cur, o);
    if |legs| == 1 {
      AllListed(here, limit, g.items, o);
      assert r in ToSet(g.items);
    }
    if r in g.items {
      i :| 0 <= i < |g.items| && g.items[i] == r;
    } else {
      var last := LastOfLeg(g, limit, o);
      assert r in here - ToSet(g.items);
      assert Newer(last, r, o);
      var rest := legs[1..];
      forall j | 0 <= j < |rest| ensures Holds(rest[j].table, k, o) {
        assert rest[j] == legs[j + 1] && Holds(legs[j + 1].table, k, o);
      }
      assert rest[|rest| - 1] == legs[|legs| - 1];
      var n := PresentIsListed(rest, limit, o, k);
      i := |g.items| + n;
    }
  }

  // ---- a table that stands still ----

  /** The next leg starts with exactly what this one left. */
  lemma {:induction false} LegConsumes(g: Leg, limit: nat, o: Order)
    requires limit >= 1 && IsLeg(g, limit, o) && More(g, limit, o)
    ensures var here, next := Remaining(g.table, g.cur, o), Remaining(g.table, LastKey(g.items, o), o);
      next == here - ToSet(g.items) && ToSet(g.items) <= here && |next| == |here| - limit
  {
    var items, here := g.items, Remaining(g.table, g.cur, o);
    var last := LastOfLeg(g, limit, o);
    var next := Remaining(g.table, Key(last, o), o);
    LegItems(g, limit, o);
    forall r | r in here - ToSet(items) ensures r in next {
      PastRow(r, last, o);
    }
    forall r | r in next ensures r in here - ToSet(items) {
      PastRow(r, last, o);
      PastIsTransitive(r, last, g.cur, o);
      if r in items {
        var i :| 0 <= i < |items| && items[i] == r;
        assert i == limit - 1 || Newer(items[i], items[limit - 1], o);
        NewerIsTotal(g.table, r, last, o);
      }
    }
    SetOfDistinct(items);
    assert here == ToSet(items) + (here - ToSet(items));
  }

  /** ceil(n / limit) pages, and one empty page for an empty list. */
  function PageCount(n: nat, limit: nat): nat
    requires limit >= 1
  {
    if n == 0 then 1 else (n + limit - 1) / limit
  }

  lemma {:induction false} PageCountStep(n: nat, limit: nat)
    requires limit >= 1 && n > limit
    ensures PageCount(n, limit) == 1 + PageCount(n - limit, limit)
  {
    QuotientUnique(n - 1 + limit, limit, (n - 1) / limit + 1, (n - 1) % limit);
  }

  lemma {:induction false} TimesKeepsOrder(a: nat, b: nat, d: nat)
    ensures a <= b ==> a * d <= b * d
  {
  }

  lemma {:induction false} QuotientUnique(x: nat, d: nat, q: nat, r: nat)
    requires r < d && x == q * d + r
    ensures x / d == q
  {
    var q' := x / d;
    TimesKeepsOrder(q' + 1, q, d);
    TimesKeepsOrder(q + 1, q', d);
  }

  lemma {:induction false} UnfinishedIsShorter(k: nat, limit: nat, n: nat)
    requires limit >= 1 && k * limit < n
    ensures k < PageCount(n, limit)
  {
    var q := (n + limit - 1) / limit;
    TimesKeepsOrder(q, k, limit);
    assert n + limit - 1 < q * limit + limit;
  }

  ghost predicate StandsStill(legs: seq<Leg>, rows: set<Row>) {
    forall i :: 0 <= i < |legs| ==> legs[i].table == rows
  }

  /** `count` legs listed `listed` of the rows `here`: all of them if done, too few pages so far if not. */
  ghost predicate Covers(done: bool, count: nat, listed: set<Row>, here: set<Row>, limit: nat)
    requires limit >= 1
  {
    && (done ==> listed == here && count == PageCount(|here|, limit))
    && (!done ==> count * limit < |here|)
  }

  lemma {:induction false} OneLegTrip(legs: seq<Leg>, rows: set<Row>, limit: nat, o: Order)
    requires limit >= 1 && Trip(legs, limit, o) && StandsStill(legs, rows) && |legs| == 1
    ensures Covers(Done(legs, limit, o), 1, ToSet(Listed(legs)), Remaining(rows, legs[0].cur, o), limit)
  {
    var here := Remaining(rows, legs[0].cur, o);
    assert Listed(legs) == legs[0].items;
    if Done(legs, limit, o) {
      AllListed(here, limit, legs[0].items, o);
      if |here| > 0 {
        QuotientUnique(|here| + limit - 1, limit, 1, |here| - 1);
      }
    }
  }

  lemma {:induction false} CoversOneMore(done: bool, count: nat, items: set<Row>, listed: set<Row>, here: set<Row>,
      limit: nat)
    requires limit >= 1 && items <= here && |here - items| == |here| - limit && |here| > limit
    requires Covers(done, count, listed, here - items, limit)
    ensures Covers(done, count + 1, items + listed, here, limit)
  {
    PageCountStep(|here|, limit);
    assert (count + 1) * limit == count * limit + limit;
    assert items + (here - items) == here;
  }

  lemma {:induction false} TripFrom(legs: seq<Leg>, rows: set<Row>, limit: nat, o: Order)
    requires limit >= 1 && Trip(legs, limit, o) && StandsStill(legs, rows)
    ensures Covers(Done(legs, limit, o), |legs|, ToSet(Listed(legs)), Remaining(rows, legs[0].cur, o), limit)
    decreases |legs|
  {
    if |legs| == 1 {
      OneLegTrip(legs, rows, limit, o);
    } else {
      var g, rest := legs[0], legs[1..];
      assert g.table == rows;
      LegConsumes(g, limit, o);
      TripFrom(rest, rows, limit, o);
      assert Done(legs, limit, o) == Done(rest, limit, o) by {
        assert rest[|rest| - 1] == legs[|legs| - 1];
      }
      var here := Remaining(rows, g.cur, o);
      CoversOneMore(Done(rest, limit, o), |rest|, ToSet(g.items), ToSet(Listed(rest)), here, limit);
      UnionOfParts(g.items, Listed(rest));
    }
  }

  lemma {:induction false} UnionOfParts(a: seq<Row>, b: seq<Row>)
    ensures ToSet(a + b) == ToSet(a) + ToSet(b)
  {}

  // ---- what the client sees: pages and opaque tokens ----

  /**
   * The i-th request sends token i (none at first) against table i; each page's next_cursor
   * is the following token.
   */
  ghost predicate IsWalk(tables: seq<set<Row>>, limit: nat, pages: seq<Page>, cursors: seq<Cursor>, o: Order) {
    && |tables| == |pages| == |cursors| && pages != [] && cursors[0] == START
    && (forall i :: 0 <= i < |pages| ==> Table(tables[i], o) && IsPage(tables[i], cursors[i], limit, pages[i], o))
    && (forall i :: 0 <= i < |pages| - 1 ==> pages[i].next != "" && DecodeCursor(pages[i].next) == Ok(cursors[i + 1]))
  }

  predicate Finished(pages: seq<Page>) {
    pages != [] && pages[|pages| - 1].next == ""
  }

  function Legs(tables: seq<set<Row>>, pages: seq<Page>, cursors: seq<Cursor>): (legs: seq<Leg>)
    requires |tables| == |pages| == |cursors|
    ensures |legs| == |pages|
  {
    seq(|pages|, i requires 0 <= i < |pages| => Leg(tables[i], cursors[i], pages[i].items))
  }

  /** A token appears exactly when more remains, and decodes to the last row's position, never the start. */
  lemma {:induction false} TokenMeansMore(rows: set<Row>, cur: Cursor, limit: nat, page: Page, o: Order)
    requires limit >= 1 && Table(rows, o) && IsPage(rows, cur, limit, page, o)
    ensures var g := Leg(rows, cur, page.items);
      && IsLeg(g, limit, o) && (page.next != "" <==> More(g, limit, o))
      && (page.next != "" ==>
            DecodeCursor(page.next) == Ok(LastKey(page.items, o)) && !IsZero(LastKey(page.items, o)))
  {
    var g := Leg(rows, cur, page.items);
    if More(g, limit, o) {
      var last := LastOfLeg(g, limit, o);
      PastRow(last, last, o);
      C.RoundTrip(Key(last, o));
    }
  }

  /** Leg i is one, and the next starts where it ended. */
  ghost predicate FollowsOn(legs: seq<Leg>, i: int, limit: nat, o: Order)
    requires 0 <= i < |legs|
  {
    && IsLeg(legs[i], limit, o)
    && (i < |legs| - 1 ==> More(legs[i], limit, o) && legs[i + 1].cur == LastKey(legs[i].items, o))
  }

  /** The i-th page as a leg, and where the next one starts. */
  lemma {:induction false} PageIsLeg(tables: seq<set<Row>>, limit: nat, pages: seq<Page>, cursors: seq<Cursor>,
      o: Order, i: nat)
    requires limit >= 1 && IsWalk(tables, limit, pages, cursors, o) && i < |pages|
    ensures var legs := Legs(tables, pages, cursors);
      FollowsOn(legs, i, limit, o) && (pages[i].next != "" <==> More(legs[i], limit, o))
  {
    var legs := Legs(tables, pages, cursors);
    assert Table(tables[i], o) && IsPage(tables[i], cursors[i], limit, pages[i], o);
    TokenMeansMore(tables[i], cursors[i], limit, pages[i], o);
    assert legs[i] == Leg(tables[i], cursors[i], pages[i].items);
    if i < |pages| - 1 {
      assert pages[i].next != "" && DecodeCursor(pages[i].next) == Ok(cursors[i + 1]);
      assert legs[i + 1].cur == cursors[i + 1];
    }
  }

  lemma {:induction false} FlatTrip(legs: seq<Leg>, limit: nat, o: Order)
    requires legs != [] && forall i :: 0 <= i < |legs| ==> FollowsOn(legs, i, limit, o)
    ensures Trip(legs, limit, o)
    decreases |legs|
  {
    assert FollowsOn(legs, 0, limit, o);
    if |legs| > 1 {
      forall i | 0 <= i < |legs[1..]|
        ensures FollowsOn(legs[1..], i, limit, o)
      {
        assert FollowsOn(legs, i + 1, limit, o);
      }
      FlatTrip(legs[1..], limit, o);
    }
  }

  lemma {:induction false} WalkIsTrip(tables: seq<set<Row>>, limit: nat, pages: seq<Page>, cursors: seq<Cursor>,
      o: Order)
    requires limit >= 1 && IsWalk(tables, limit, pages, cursors, o)
    ensures var legs := Legs(tables, pages, cursors);
      Trip(legs, limit, o) && (Finished(pages) <==> Done(legs, limit, o))
  {
    var legs := Legs(tables, pages, cursors);
    forall i: int | 0 <= i < |legs|
      ensures FollowsOn(legs, i, limit, o)
    {
      PageIsLeg(tables, limit, pages, cursors, o, i);
    }
    PageIsLeg(tables, limit, pages, cursors, o, |pages| - 1);
    FlatTrip(legs, limit, o);
  }

  /** No cursor the service emits is ever read back as the start position. */
  lemma {:induction false} TokensNeverRestart(tables: seq<set<Row>>, limit: nat, pages: seq<Page>,
      cursors: seq<Cursor>, o: Order)
    requires limit >= 1 && IsWalk(tables, limit, pages, cursors, o)
    ensures forall i :: 0 < i < |cursors| ==> cursors[i] != START
  {
    forall i | 0 < i < |cursors| ensures cursors[i] != START {
      TokenMeansMore(tables[i - 1], cursors[i - 1], limit, pages[i - 1], o);
      assert DecodeCursor(pages[i - 1].next) == Ok(cursors[i - 1 + 1]);
    }
  }

  /**
   * Walk stability: whatever is inserted, removed or changed between the fetches, the keys
   * returned strictly decrease over the whole walk, and a position that a row occupies at
   * every fetch is returned exactly once.
   */
  lemma {:induction false} WalkIsStable(tables: seq<set<Row>>, limit: nat, pages: seq<Page>, cursors: seq<Cursor>,
      o: Order)
    requires limit >= 1 && IsWalk(tables, limit, pages, cursors, o) && Finished(pages)
    ensures var legs := Legs(tables, pages, cursors);
      && Descending(Listed(legs), o)
      && forall k :: HeldThroughout(tables, k, o) ==> ListedOnce(legs, k, o)
  {
    var legs := Legs(tables, pages, cursors);
    WalkIsTrip(tables, limit, pages, cursors, o);
    TripDescends(legs, limit, o);
    forall k | HeldThroughout(tables, k, o) ensures ListedOnce(legs, k, o) {
      var i := PresentIsListed(legs, limit, o, k);
      forall j: nat | ListedAt(legs, j, k, o) ensures j == i {
        SameKeySamePlace(Listed(legs), i, j, o);
      }
    }
  }

  lemma {:induction false} SameKeySamePlace(s: seq<Row>, i: nat, j: nat, o: Order)
    requires Descending(s, o) && i < |s| && j < |s|
    requires Positioned(s[i], o) && Positioned(s[j], o) && Key(s[i], o) == Key(s[j], o)
    ensures i == j
  {
    KeyOrder(Key(s[i], o), Key(s[i], o), Key(s[i], o));
    assert !Newer(s[i], s[j], o) && !Newer(s[j], s[i], o);
  }

  /**
   * Over a table that stands still the walk refines the sorted list: it ends after exactly
   * max(1, ceil(n / limit)) pages (an unfinished walk is shorter), and the concatenated pages
   * are the filtered rows, newest first, each once.
   */
  lemma {:induction false} FullWalkIsTheSortedList(tables: seq<set<Row>>, rows: set<Row>, limit: nat,
                                                   pages: seq<Page>, cursors: seq<Cursor>, o: Order)
    requires limit >= 1 && IsWalk(tables, limit, pages, cursors, o)
    requires forall i :: 0 <= i < |tables| ==> tables[i] == rows
    ensures Finished(pages) <==> |pages| == PageCount(|rows|, limit)
    ensures |pages| <= PageCount(|rows|, limit)
    ensures var list := Listed(Legs(tables, pages, cursors));
      Finished(pages) ==> Descending(list, o) && ToSet(list) == rows && |list| == |rows|
  {
    var legs := Legs(tables, pages, cursors);
    assert Remaining(rows, START, o) == rows;
    WalkIsTrip(tables, limit, pages, cursors, o);
    TripFrom(legs, rows, limit, o);
    TripDescends(legs, limit, o);
    DistinctByOrder(Listed(legs), o);
    SetOfDistinct(Listed(legs));
    if !Finished(pages) {
      UnfinishedIsShorter(|pages|, limit, |rows|);
    }
  }

  /** Strictly descending lists of the same rows are equal, so the list a walk yields is the only one. */
  lemma {:induction false} SortedListIsUnique(a: seq<Row>, b: seq<Row>, o: Order)
    requires Descending(a, o) && Descending(b, o) && ToSet(a) == ToSet(b)
    ensures a == b
    decreases |a|
  {
    if b != [] {
      assert b[0] in ToSet(b);
    }
    if a != [] {
      assert a[0] in ToSet(b) && b != [] && b[0] in ToSet(a);
      var i :| 0 <= i < |b| && b[i] == a[0];
      var j :| 0 <= j < |a| && a[j] == b[0];
      if i > 0 && j > 0 {
        assert Newer(b[0], b[i], o) && Newer(a[0], a[j], o);
        KeyOrder(Key(a[0], o), Key(b[0], o), Key(a[0], o));
      }
      DistinctByOrder(a, o);
      DistinctByOrder(b, o);
      assert a[0] == b[0];
      TailSet(a);
      TailSet(b);
      SortedListIsUnique(a[1..], b[1..], o);
      assert a == [a[0]] + a[1..] && b == [b[0]] + b[1..];
    }
  }

  lemma {:induction false} TailSet(s: seq<Row>)
    requires s != [] && NoDuplicates(s)
    ensures ToSet(s[1..]) == ToSet(s) - {s[0]}
  {
    forall x | x in ToSet(s) - {s[0]} ensures x in ToSet(s[1..]) {
      var i :| 0 <= i < |s| && s[i] == x;
      assert s[1..][i - 1] == x;
    }
  }
}
