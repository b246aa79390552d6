/** internal/query/cursor.go: the opaque page position. */
module Cursor {
  import opened Basics
  import opened Base64
  import opened Timestamp

  /** The (time, id) of the last row returned; ids are byte strings. */
  datatype Cursor = Cursor(time: Nanos, id: Text)

  const START: Cursor := Cursor(0, [])

  datatype CursorError = BadEncoding | NoSeparator | BadTime

  const BAR: Byte := 124

  predicate IsZero(c: Cursor) {
    c.time == 0 && c.id == []
  }

  function EncodeCursor(c: Cursor): string
    requires c.time >= 0
  {
    Base64.Encode(Timestamp.Format(c.time) + [BAR] + c.id)
  }

  /** strings.Cut at the first bar. */
  function Cut(s: Text): Option<(Text, Text)> {
    if s == [] then None
    else if s[0] == BAR then Some(([], s[1..]))
    else
      match Cut(s[1..])
      case None => None
      case Some((before, after)) => Some(([s[0]] + before, after))
  }

  function DecodeCursor(s: string): Result<Cursor, CursorError> {
    if s == "" then Ok(START) else
      match Base64.Decode(s)
      case None => Err(BadEncoding)
      case Some(raw) =>
        match Cut(raw)
        case None => Err(NoSeparator)
        case Some((ts, id)) =>
          match Timestamp.Parse(ts)
          case None => Err(BadTime)
          case Some(t) => Ok(Cursor(t, id))
  }

  lemma {:induction false} CutAtFirstBar(before: Text, after: Text)
    requires BAR !in before
    ensures Cut(before + [BAR] + after) == Some((before, after))
  {
    var s := before + [BAR] + after;
    if before == [] {
      assert s[1..] == after;
    } else {
      CutAtFirstBar(before[1..], after);
      assert s[1..] == before[1..] + [BAR] + after;
      assert before == [before[0]] + before[1..];
    }
  }

  lemma {:induction false} FormatHasNoBar(t: nat)
    ensures BAR !in Timestamp.Format(t)
  {
    var c := CivilOf(t);
    var all, digits := Decimal(c.nano, 9), Trim(Decimal(c.nano, 9));
    TrimKeepsDigits(all);
  }

  lemma {:induction false} TrimKeepsDigits(s: Text)
    requires AllDigits(s)
    ensures AllDigits(Trim(s))
  {
    if s != [] {
      TrimKeepsDigits(s[..|s| - 1]);
    }
  }

  /**
   * A cursor survives the trip exactly when its year has four digits, whatever bytes its id
   * holds (bars included), and an encoded cursor is never mistaken for the start position.
   */
  lemma {:induction false} RoundTrip(c: Cursor)
    requires c.time >= 0
    ensures DecodeCursor(EncodeCursor(c)) == if c.time < YEAR_10000 then Ok(c) else Err(BadTime)
    ensures EncodeCursor(c) != ""
  {
    var ts := Timestamp.Format(c.time);
    Base64.RoundTrip(ts + [BAR] + c.id);
    FormatHasNoBar(c.time);
    CutAtFirstBar(ts, c.id);
    Timestamp.RoundTrip(c.time);
  }

  /** The empty cursor is the start, and nothing else an encoder emits decodes to it unless it was it. */
  lemma {:induction false} OnlyZeroReadsAsStart(c: Cursor)
    requires c.time >= 0 && c.time < YEAR_10000
    ensures DecodeCursor("") == Ok(START)
    ensures DecodeCursor(EncodeCursor(c)) == Ok(START) <==> c == START
    ensures IsZero(c) <==> c == START
  {
    RoundTrip(c);
  }

  /** What an encoded cursor says under its base64: the timestamp, a bar, the id. */
  lemma {:induction false} CursorText(c: Cursor)
    requires 0 <= c.time < YEAR_10000
    ensures var raw := Timestamp.Format(c.time) + ['|' as int] + c.id;
      Base64.Decode(EncodeCursor(c)) == Some(raw)
  {
    Base64.RoundTrip(Timestamp.Format(c.time) + [BAR] + c.id);
  }
}
