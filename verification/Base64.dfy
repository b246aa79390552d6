/** Unpadded URL-safe base64 (sections 3.2 and 5 of RFC 4648) as Go's RawURLEncoding reads and writes it. */
module Base64 {
  import opened Basics

  type Byte = b: int | 0 <= b < 256

  type Text = seq<Byte>

  type Sextet = n: int | 0 <= n < 64

  function Symbol(n: Sextet): char {
    if n < 26 then ('A' as int + n) as char
    else if n < 52 then ('a' as int + (n - 26)) as char
    else if n < 62 then ('0' as int + (n - 52)) as char
    else if n == 62 then '-'
    else '_'
  }

  function SextetOf(c: char): Option<Sextet> {
    if 'A' <= c <= 'Z' then Some(c as int - 'A' as int)
    else if 'a' <= c <= 'z' then Some(c as int - 'a' as int + 26)
    else if '0' <= c <= '9' then Some(c as int - '0' as int + 52)
    else if c == '-' then Some(62)
    else if c == '_' then Some(63)
    else None
  }

  /** Three bytes make four sextets; a short last group is filled up with zero bits. */
  function Split(b: Text): seq<Sextet> {
    if b == [] then []
    else if |b| == 1 then [b[0] / 4, b[0] % 4 * 16]
    else if |b| == 2 then [b[0] / 4, b[0] % 4 * 16 + b[1] / 16, b[1] % 16 * 4]
    else [b[0] / 4, b[0] % 4 * 16 + b[1] / 16, b[1] % 16 * 4 + b[2] / 64, b[2] % 64] + Split(b[3..])
  }

  function Symbols(q: seq<Sextet>): string {
    if q == [] then "" else [Symbol(q[0])] + Symbols(q[1..])
  }

  function Encode(b: Text): string {
    Symbols(Split(b))
  }

  /** Line breaks are skipped wherever they stand. */
  function WithoutBreaks(s: string): string {
    if s == "" then "" else
      (if s[0] == '\n' || s[0] == '\r' then "" else [s[0]]) + WithoutBreaks(s[1..])
  }

  function Sextets(s: string): Option<seq<Sextet>> {
    if s == "" then Some([]) else
      match (SextetOf(s[0]), Sextets(s[1..]))
      case (Some(n), Some(rest)) => Some([n] + rest)
      case _ => None
  }

  function First(a: Sextet, b: Sextet): Byte {
    a as int * 4 + b as int / 16
  }

  function Second(b: Sextet, c: Sextet): Byte {
    b as int % 16 * 16 + c as int / 4
  }

  function Third(c: Sextet, d: Sextet): Byte {
    c as int % 4 * 64 + d as int
  }

  /** The bytes of a sextet stream; left-over bits of a short last group are dropped. */
  function Join(q: seq<Sextet>): Option<Text> {
    if q == [] then Some([])
    else if |q| == 1 then None
    else if |q| == 2 then Some([First(q[0], q[1])])
    else if |q| == 3 then Some([First(q[0], q[1]), Second(q[1], q[2])])
    else
      match Join(q[4..])
      case None => None
      case Some(rest) => Some([First(q[0], q[1]), Second(q[1], q[2]), Third(q[2], q[3])] + rest)
  }

  function Decode(s: string): Option<Text> {
    match Sextets(WithoutBreaks(s))
    case None => None
    case Some(q) => Join(q)
  }

  lemma {:induction false} SymbolReadsBack(n: Sextet)
    ensures SextetOf(Symbol(n)) == Some(n) && Symbol(n) != '\n' && Symbol(n) != '\r'
  {
  }

  lemma {:induction false} SymbolsReadBack(q: seq<Sextet>)
    ensures WithoutBreaks(Symbols(q)) == Symbols(q) && Sextets(Symbols(q)) == Some(q)
  {
    if q != [] {
      SymbolsReadBack(q[1..]);
      SymbolReadsBack(q[0]);
      assert Symbols(q)[1..] == Symbols(q[1..]);
      assert q == [q[0]] + q[1..];
    }
  }

  /** The bytes a group of sextets spells are the bytes it was made from. */
  lemma {:induction false} GroupReadsBack(a: Byte, b: Byte, c: Byte)
    ensures First(a / 4, a % 4 * 16 + b / 16) == a
    ensures Second(a % 4 * 16 + b / 16, b % 16 * 4 + c / 64) == b
    ensures Third(b % 16 * 4 + c / 64, c % 64) == c
  {
  }

  lemma {:induction false} JoinGroup(q: seq<Sextet>, rest: seq<Sextet>, b: Text)
    requires |q| == 4 && Join(rest) == Some(b)
    ensures Join(q + rest) == Some([First(q[0], q[1]), Second(q[1], q[2]), Third(q[2], q[3])] + b)
  {
    assert (q + rest)[4..] == rest;
  }

  lemma {:induction false} SplitInFront(a: Byte, b: Byte, c: Byte, rest: Text)
    ensures Split([a, b, c] + rest) ==
      [a / 4, a % 4 * 16 + b / 16, b % 16 * 4 + c / 64, c % 64] + Split(rest)
  {
    assert ([a, b, c] + rest)[3..] == rest;
  }

  /** One group in front of text that reads back. */
  lemma {:induction false} GroupInFront(a: Byte, b: Byte, c: Byte, rest: Text)
    requires Join(Split(rest)) == Some(rest)
    ensures Join(Split([a, b, c] + rest)) == Some([a, b, c] + rest)
  {
    SplitInFront(a, b, c, rest);
    JoinGroup([a / 4, a % 4 * 16 + b / 16, b % 16 * 4 + c / 64, c % 64], Split(rest), rest);
    GroupReadsBack(a, b, c);
  }

  lemma {:induction false} OneByte(a: Byte)
    ensures Join(Split([a])) == Some([a])
  {
    var x: Sextet, y: Sextet := a / 4, a % 4 * 16;
    assert Split([a]) == [x, y] && Join([x, y]) == Some([First(x, y)]);
    assert First(x, y) == a;
  }

  lemma {:induction false} TwoBytes(a: Byte, b: Byte)
    ensures Join(Split([a, b])) == Some([a, b])
  {
    var x: Sextet, y: Sextet, z: Sextet := a / 4, a % 4 * 16 + b / 16, b % 16 * 4;
    assert Split([a, b]) == [x, y, z] && Join([x, y, z]) == Some([First(x, y), Second(y, z)]);
    assert First(x, y) == a && Second(y, z) == b;
  }

  lemma {:induction false} JoinSplit(b: Text)
    ensures Join(Split(b)) == Some(b)
    decreases |b|
  {
    if |b| >= 3 {
      JoinSplit(b[3..]);
      GroupInFront(b[0], b[1], b[2], b[3..]);
      assert b == [b[0], b[1], b[2]] + b[3..];
    } else if |b| == 2 {
      TwoBytes(b[0], b[1]);
      assert b == [b[0], b[1]];
    } else if |b| == 1 {
      OneByte(b[0]);
      assert b == [b[0]];
    }
  }

  lemma {:induction false} RoundTrip(b: Text)
    ensures Decode(Encode(b)) == Some(b)
    ensures Encode(b) == "" <==> b == []
  {
    SymbolsReadBack(Split(b));
    JoinSplit(b);
  }

  lemma {:induction false} WithoutBreak(a: string, c: char, b: string)
    requires c == '\n' || c == '\r'
    ensures WithoutBreaks(a + [c] + b) == WithoutBreaks(a + b)
  {
    var s, t := a + [c] + b, a + b;
    if a == "" {
      assert s[1..] == b && t == b;
    } else {
      WithoutBreak(a[1..], c, b);
      assert s[0] == a[0] == t[0] && s[1..] == a[1..] + [c] + b && t[1..] == a[1..] + b;
    }
  }

  /** A line break anywhere in the text changes nothing of what it decodes to. */
  lemma {:induction false} BreaksDoNotMatter(a: string, c: char, b: string)
    requires c == '\n' || c == '\r'
    ensures Decode(a + [c] + b) == Decode(a + b)
  {
    WithoutBreak(a, c, b);
  }

  lemma {:induction false} SymbolsAppend(q: seq<Sextet>, r: seq<Sextet>)
    ensures Symbols(q + r) == Symbols(q) + Symbols(r)
    decreases |q|
  {
    var s := q + r;
    if q == [] {
      assert s == r;
    } else {
      var c := Symbol(q[0]);
      SymbolsAppend(q[1..], r);
      assert s[0] == q[0] && s[1..] == q[1..] + r;
      assert Symbols(s) == [c] + Symbols(q[1..] + r);
      assert Symbols(q) == [c] + Symbols(q[1..]);
    }
  }

  /** Three bytes of the input are four symbols of the output. */
  lemma {:induction false} OneGroup(a: Byte, b: Byte, c: Byte, rest: Text)
    ensures Encode([a, b, c] + rest) ==
      [Symbol(a / 4), Symbol(a % 4 * 16 + b / 16), Symbol(b % 16 * 4 + c / 64), Symbol(c % 64)] + Encode(rest)
  {
    var q: seq<Sextet> := [a / 4, a % 4 * 16 + b / 16, b % 16 * 4 + c / 64, c % 64];
    SplitInFront(a, b, c, rest);
    SymbolsAppend(q, Split(rest));
    FourSymbols(q);
  }

  lemma {:induction false} FourSymbols(q: seq<Sextet>)
    requires |q| == 4
    ensures Symbols(q) == [Symbol(q[0]), Symbol(q[1]), Symbol(q[2]), Symbol(q[3])]
  {
    var r := q[1..][1..];
    assert r == [q[2], q[3]] && r[1..] == [q[3]] && r[1..][1..] == [];
    assert Symbols(r[1..]) == [Symbol(q[3])];
    assert Symbols(r) == [Symbol(q[2]), Symbol(q[3])];
    assert Symbols(q[1..]) == [Symbol(q[1])] + Symbols(r);
  }

  /** The last vector of section 10 of RFC 4648, and the two symbols of section 5 that differ from section 4. */
  lemma {:induction false} KnownTexts()
    ensures Encode(['f' as int, 'o' as int, 'o' as int, 'b' as int, 'a' as int, 'r' as int]) == "Zm9vYmFy"
    ensures Encode([255, 239, 191]) == "_--_"
  {
    OtherSymbols();
    var foo: Text, bar: Text := [102, 111, 111], [98, 97, 114];
    assert Encode(bar) == "YmFy" by {
      OneGroup(98, 97, 114, []);
      assert bar == [98, 97, 114] + [];
    }
    assert Encode(foo + bar) == "Zm9v" + "YmFy" by {
      OneGroup(102, 111, 111, bar);
    }
    assert foo + bar == ['f' as int, 'o' as int, 'o' as int, 'b' as int, 'a' as int, 'r' as int];
  }

  lemma {:induction false} OtherSymbols()
    ensures Encode([255, 239, 191]) == "_--_"
  {
    var s: Text := [255, 239, 191];
    OneGroup(255, 239, 191, []);
    assert s == [255, 239, 191] + [];
  }
}
