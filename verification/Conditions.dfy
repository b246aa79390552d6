/**
 * internal/query/repo.go: filters compiled to SQL conditions with positional placeholders,
 * what SQL makes of them (three-valued logic, row-wise comparison), and what they mean.
 */
module Conditions {
  import opened Basics
  import opened Base64
  import opened Timestamp
  import opened Cursor

  type Column = string

  datatype Value = Null | TextValue(text: Text) | TimeValue(at: Nanos)

  type Row = map<Column, Value>

  function Get(row: Row, col: Column): Value {
    if col in row then row[col] else Null
  }

  // ---- SQL ----

  /** Conditions as written, naming arguments by position ($1 is the first). */
  datatype Cond =
    | Equal(col: Column, n: nat)
    | AtLeast(col: Column, n: nat)
    | AtMost(col: Column, n: nat)
    | RowLess(tsCol: Column, idCol: Column, tsArg: nat, idArg: nat)

  datatype Truth = True | False | Unknown

  function Truly(b: bool): Truth {
    if b then True else False
  }

  /** a < b; comparing with NULL, or values of different types, yields no truth. */
  function SqlLess(a: Value, b: Value): Truth {
    match (a, b)
    case (TextValue(x), TextValue(y)) => Truly(TextLess(x, y))
    case (TimeValue(x), TimeValue(y)) => Truly(x < y)
    case _ => Unknown
  }

  function SqlEqual(a: Value, b: Value): Truth {
    if a.Null? || b.Null? then Unknown else Truly(a == b)
  }

  function Not(t: Truth): Truth {
    match t
    case True => False
    case False => True
    case Unknown => Unknown
  }

  function And(s: Truth, t: Truth): Truth {
    if s == False || t == False then False
    else if s == Unknown || t == Unknown then Unknown
    else True
  }

  /** (a, b) < (c, d): decided by the first pair that differs, unknown if that pair is. */
  function SqlRowLess(a: Value, b: Value, c: Value, d: Value): Truth {
    match SqlEqual(a, c)
    case True => SqlLess(b, d)
    case False => SqlLess(a, c)
    case Unknown => Unknown
  }

  predicate Names(c: Cond, n: nat) {
    match c
    case RowLess(_, _, i, j) => 1 <= i <= n && 1 <= j <= n
    case _ => 1 <= c.n <= n
  }

  function Eval(c: Cond, args: seq<Value>, row: Row): Truth
    requires Names(c, |args|)
  {
    match c
    case Equal(col, n) => SqlEqual(Get(row, col), args[n - 1])
    case AtLeast(col, n) => Not(SqlLess(Get(row, col), args[n - 1]))
    case AtMost(col, n) => Not(SqlLess(args[n - 1], Get(row, col)))
    case RowLess(tsCol, idCol, i, j) => SqlRowLess(Get(row, tsCol), Get(row, idCol), args[i - 1], args[j - 1])
  }

  datatype Built = Built(conds: seq<Cond>, args: seq<Value>)

  const EMPTY: Built := Built([], [])

  ghost predicate Numbered(b: Built) {
    forall i :: 0 <= i < |b.conds| ==> Names(b.conds[i], |b.args|)
  }

  /** WHERE c1 AND c2 AND ...; no WHERE at all when there are no conditions. */
  function Where(b: Built, row: Row): Truth
    requires Numbered(b)
    decreases |b.conds|
  {
    if b.conds == [] then True else
      var last := |b.conds| - 1;
      And(Where(Built(b.conds[..last], b.args), row), Eval(b.conds[last], b.args, row))
  }

  // ---- the builder ----

  function AddEq(b: Built, col: Column, val: Text): Built {
    if val == [] then b
    else Built(b.conds + [Equal(col, |b.args| + 1)], b.args + [TextValue(val)])
  }

  function AddFrom(b: Built, col: Column, from: Option<Nanos>): Built {
    match from
    case None => b
    case Some(t) => Built(b.conds + [AtLeast(col, |b.args| + 1)], b.args + [TimeValue(t)])
  }

  function AddTo(b: Built, col: Column, to: Option<Nanos>): Built {
    match to
    case None => b
    case Some(t) => Built(b.conds + [AtMost(col, |b.args| + 1)], b.args + [TimeValue(t)])
  }

  function AddRange(b: Built, col: Column, from: Option<Nanos>, to: Option<Nanos>): Built {
    AddTo(AddFrom(b, col, from), col, to)
  }

  function AddKeyset(b: Built, tsCol: Column, idCol: Column, cur: Cursor): Built {
    if IsZero(cur) then b
    else Built(b.conds + [RowLess(tsCol, idCol, |b.args| + 1, |b.args| + 2)],
               b.args + [TimeValue(cur.time), TextValue(cur.id)])
  }

  /** The mutable accumulator of conditions and arguments. */
  class Conds {
    var conds: seq<Cond>
    var args: seq<Value>

    constructor ()
      ensures Contents() == EMPTY
    {
      conds, args := [], [];
    }

    ghost function Contents(): (b: Built)
      reads this
    {
      Built(conds, args)
    }

    method Eq(col: Column, val: Text)
      modifies this
      ensures Contents() == AddEq(old(Contents()), col, val)
    {
      if val == [] {
        return;
      }
      args := args + [TextValue(val)];
      conds := conds + [Equal(col, |args|)];
    }

    method TsRange(col: Column, from: Option<Nanos>, to: Option<Nanos>)
      modifies this
      ensures Contents() == AddRange(old(Contents()), col, from, to)
    {
      if from.Some? {
        args := args + [TimeValue(from.value)];
        conds := conds + [AtLeast(col, |args|)];
      }
      if to.Some? {
        args := args + [TimeValue(to.value)];
        conds := conds + [AtMost(col, |args|)];
      }
    }

    method Keyset(tsCol: Column, idCol: Column, cur: Cursor)
      modifies this
      ensures Contents() == AddKeyset(old(Contents()), tsCol, idCol, cur)
    {
      if IsZero(cur) {
        return;
      }
      args := args + [TimeValue(cur.time), TextValue(cur.id)];
      conds := conds + [RowLess(tsCol, idCol, |args| - 1, |args|)];
    }
  }

  // ---- meaning ----

  /** An empty filter field is ignored, and a NULL column never equals a filter. */
  predicate EqMatches(row: Row, col: Column, val: Text) {
    val == [] || Get(row, col) == TextValue(val)
  }

  predicate FromMatches(row: Row, col: Column, from: Option<Nanos>) {
    from.Some? ==> Get(row, col).TimeValue? && from.value <= Get(row, col).at
  }

  predicate ToMatches(row: Row, col: Column, to: Option<Nanos>) {
    to.Some? ==> Get(row, col).TimeValue? && Get(row, col).at <= to.value
  }

  /** The row lies strictly after the cursor in newest-first order. */
  predicate PastCursor(row: Row, tsCol: Column, idCol: Column, cur: Cursor) {
    cur == START ||
    (Get(row, tsCol).TimeValue?
     && (Get(row, tsCol).at < cur.time
         || (Get(row, tsCol).at == cur.time && Get(row, idCol).TextValue? && TextLess(Get(row, idCol).text, cur.id))))
  }

  predicate Selects(b: Built, row: Row)
    requires Numbered(b)
  {
    Where(b, row) == True
  }

  lemma {:induction false} EvalKeeps(c: Cond, args: seq<Value>, more: seq<Value>, row: Row)
    requires Names(c, |args|)
    ensures Names(c, |args + more|) && Eval(c, args + more, row) == Eval(c, args, row)
  {
  }

  /** Adding conditions and arguments at the end disturbs nothing built so far. */
  lemma {:induction false} LaterArgumentsDoNotMatter(b: Built, more: seq<Value>, row: Row)
    requires Numbered(b)
    ensures Numbered(Built(b.conds, b.args + more))
    ensures Where(Built(b.conds, b.args + more), row) == Where(b, row)
    decreases |b.conds|
  {
    if b.conds != [] {
      var last := |b.conds| - 1;
      LaterArgumentsDoNotMatter(Built(b.conds[..last], b.args), more, row);
      EvalKeeps(b.conds[last], b.args, more, row);
    }
  }

  lemma {:induction false} OneMoreCondition(b: Built, c: Cond, more: seq<Value>, row: Row)
    requires Numbered(b) && Names(c, |b.args + more|)
    ensures Numbered(Built(b.conds + [c], b.args + more))
    ensures Where(Built(b.conds + [c], b.args + more), row) == And(Where(b, row), Eval(c, b.args + more, row))
  {
    LaterArgumentsDoNotMatter(b, more, row);
    assert (b.conds + [c])[..|b.conds|] == b.conds;
  }

  predicate Holds(c: Cond, args: seq<Value>, row: Row)
    requires Names(c, |args|)
  {
    Eval(c, args, row) == True
  }

  lemma {:induction false} OneMoreSelects(b: Built, c: Cond, more: seq<Value>, row: Row)
    requires Numbered(b) && Names(c, |b.args + more|)
    ensures Numbered(Built(b.conds + [c], b.args + more))
    ensures Selects(Built(b.conds + [c], b.args + more), row) <==> Selects(b, row) && Holds(c, b.args + more, row)
  {
    OneMoreCondition(b, c, more, row);
  }

  /** Placeholder |args| + 1 names the argument about to be appended. */
  lemma {:induction false} NewArgument(b: Built, v: Value)
    ensures (b.args + [v])[|b.args|] == v
  {
  }

  lemma {:induction false} EqMeans(b: Built, col: Column, val: Text, row: Row)
    requires Numbered(b)
    ensures Numbered(AddEq(b, col, val))
    ensures Selects(AddEq(b, col, val), row) <==> Selects(b, row) && EqMatches(row, col, val)
  {
    if val != [] {
      var c, v := Equal(col, |b.args| + 1), TextValue(val);
      OneMoreSelects(b, c, [v], row);
      NewArgument(b, v);
    }
  }

  lemma {:induction false} FromMeans(b: Built, col: Column, from: Option<Nanos>, row: Row)
    requires Numbered(b)
    ensures Numbered(AddFrom(b, col, from))
    ensures Selects(AddFrom(b, col, from), row) <==> Selects(b, row) && FromMatches(row, col, from)
  {
    if from.Some? {
      var c, v := AtLeast(col, |b.args| + 1), TimeValue(from.value);
      OneMoreSelects(b, c, [v], row);
      NewArgument(b, v);
    }
  }

  lemma {:induction false} ToMeans(b: Built, col: Column, to: Option<Nanos>, row: Row)
    requires Numbered(b)
    ensures Numbered(AddTo(b, col, to))
    ensures Selects(AddTo(b, col, to), row) <==> Selects(b, row) && ToMatches(row, col, to)
  {
    if to.Some? {
      var c, v := AtMost(col, |b.args| + 1), TimeValue(to.value);
      OneMoreSelects(b, c, [v], row);
      NewArgument(b, v);
    }
  }

  lemma {:induction false} RangeMeans(b: Built, col: Column, from: Option<Nanos>, to: Option<Nanos>, row: Row)
    requires Numbered(b)
    ensures Numbered(AddRange(b, col, from, to))
    ensures Selects(AddRange(b, col, from, to), row) <==>
      Selects(b, row) && FromMatches(row, col, from) && ToMatches(row, col, to)
  {
    FromMeans(b, col, from, row);
    ToMeans(AddFrom(b, col, from), col, to, row);
  }

  lemma {:induction false} RowLessMeans(at: Value, id: Value, cur: Cursor)
    ensures SqlRowLess(at, id, TimeValue(cur.time), TextValue(cur.id)) == True <==>
      at.TimeValue? && (at.at < cur.time || (at.at == cur.time && id.TextValue? && TextLess(id.text, cur.id)))
  {
  }

  lemma {:induction false} KeysetMeans(b: Built, tsCol: Column, idCol: Column, cur: Cursor, row: Row)
    requires Numbered(b)
    ensures Numbered(AddKeyset(b, tsCol, idCol, cur))
    ensures Selects(AddKeyset(b, tsCol, idCol, cur), row) <==> Selects(b, row) && PastCursor(row, tsCol, idCol, cur)
  {
    if !IsZero(cur) {
      var c, more := RowLess(tsCol, idCol, |b.args| + 1, |b.args| + 2), [TimeValue(cur.time), TextValue(cur.id)];
      OneMoreSelects(b, c, more, row);
      assert (b.args + more)[|b.args|] == more[0] && (b.args + more)[|b.args| + 1] == more[1];
      RowLessMeans(Get(row, tsCol), Get(row, idCol), cur);
    }
  }

  // ---- the three list filters ----

  datatype PaymentFilter = PaymentFilter(
    direction: Text, status: Text, asset: Text, peer: Text, from: Option<Nanos>, to: Option<Nanos>)

  datatype ChannelFilter = ChannelFilter(state: Text, peer: Text)

  datatype EventFilter = EventFilter(kind: Text, from: Option<Nanos>, to: Option<Nanos>)

  predicate PaymentMatches(f: PaymentFilter, row: Row) {
    && EqMatches(row, "direction", f.direction) && EqMatches(row, "status", f.status)
    && EqMatches(row, "asset", f.asset) && EqMatches(row, "peer", f.peer)
    && FromMatches(row, "created_at", f.from) && ToMatches(row, "created_at", f.to)
  }

  predicate ChannelMatches(f: ChannelFilter, row: Row) {
    EqMatches(row, "state", f.state) && EqMatches(row, "peer", f.peer)
  }

  predicate EventMatches(f: EventFilter, row: Row) {
    EqMatches(row, "type", f.kind) && FromMatches(row, "occurred_at", f.from) && ToMatches(row, "occurred_at", f.to)
  }

  function PaymentConds(f: PaymentFilter, cur: Cursor): Built {
    AddKeyset(
      AddRange(AddEq(AddEq(AddEq(AddEq(EMPTY, "direction", f.direction), "status", f.status), "asset", f.asset),
          "peer", f.peer),
               "created_at", f.from, f.to),
      "created_at", "payment_hash", cur)
  }

  function ChannelConds(f: ChannelFilter, cur: Cursor): Built {
    AddKeyset(AddEq(AddEq(EMPTY, "state", f.state), "peer", f.peer), "opened_at", "channel_id", cur)
  }

  function EventConds(f: EventFilter, cur: Cursor): Built {
    AddKeyset(AddRange(AddEq(EMPTY, "type", f.kind), "occurred_at", f.from, f.to), "occurred_at", "id", cur)
  }

  /** The conditions keep exactly the rows that match the filter and lie past the cursor. */
  ghost predicate MeansPayments(b: Built, f: PaymentFilter, cur: Cursor, row: Row) {
    Numbered(b) && (Selects(b, row) <==> PaymentMatches(f, row) && PastCursor(row, "created_at", "payment_hash", cur))
  }

  ghost predicate MeansChannels(b: Built, f: ChannelFilter, cur: Cursor, row: Row) {
    Numbered(b) && (Selects(b, row) <==> ChannelMatches(f, row) && PastCursor(row, "opened_at", "channel_id", cur))
  }

  ghost predicate MeansEvents(b: Built, f: EventFilter, cur: Cursor, row: Row) {
    Numbered(b) && (Selects(b, row) <==> EventMatches(f, row) && PastCursor(row, "occurred_at", "id", cur))
  }

  lemma {:induction false} PaymentRowMeaning(f: PaymentFilter, cur: Cursor, row: Row)
    ensures MeansPayments(PaymentConds(f, cur), f, cur, row)
  {
    var b1 := AddEq(EMPTY, "direction", f.direction);
    EqMeans(EMPTY, "direction", f.direction, row);
    var b2 := AddEq(b1, "status", f.status);
    EqMeans(b1, "status", f.status, row);
    var b3 := AddEq(b2, "asset", f.asset);
    EqMeans(b2, "asset", f.asset, row);
    var b4 := AddEq(b3, "peer", f.peer);
    EqMeans(b3, "peer", f.peer, row);
    var b5 := AddRange(b4, "created_at", f.from, f.to);
    RangeMeans(b4, "created_at", f.from, f.to, row);
    KeysetMeans(b5, "created_at", "payment_hash", cur, row);
  }

  /** For every filter and cursor the compiled WHERE means the filter, row by row. */
  lemma {:induction false} PaymentConditionsMean(f: PaymentFilter, cur: Cursor)
    ensures forall row :: MeansPayments(PaymentConds(f, cur), f, cur, row)
  {
    forall row: Row { PaymentRowMeaning(f, cur, row); }
  }

  lemma {:induction false} ChannelConditionsMean(f: ChannelFilter, cur: Cursor)
    ensures forall row :: MeansChannels(ChannelConds(f, cur), f, cur, row)
  {
    forall row: Row ensures MeansChannels(ChannelConds(f, cur), f, cur, row) {
      var b1 := AddEq(EMPTY, "state", f.state);
      EqMeans(EMPTY, "state", f.state, row);
      EqMeans(b1, "peer", f.peer, row);
      KeysetMeans(AddEq(b1, "peer", f.peer), "opened_at", "channel_id", cur, row);
    }
  }

  lemma {:induction false} EventConditionsMean(f: EventFilter, cur: Cursor)
    ensures forall row :: MeansEvents(EventConds(f, cur), f, cur, row)
  {
    forall row: Row ensures MeansEvents(EventConds(f, cur), f, cur, row) {
      var b1 := AddEq(EMPTY, "type", f.kind);
      EqMeans(EMPTY, "type", f.kind, row);
      RangeMeans(b1, "occurred_at", f.from, f.to, row);
      KeysetMeans(AddRange(b1, "occurred_at", f.from, f.to), "occurred_at", "id", cur, row);
    }
  }
}
