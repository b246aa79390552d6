/** internal/platform/id/id.go before the hash: what makes derived row ids collide or not. */
module Derive {
  import opened Basics

  const NUL: char := '\0'

  predicate NulFree(s: string) {
    NUL !in s
  }

  /** The bytes Derive feeds to SHA-256, written as text. */
  function Encoding(namespace: string, parts: seq<string>): string {
    if parts == [] then namespace else Encoding(namespace, parts[..|parts| - 1]) + [NUL] + parts[|parts| - 1]
  }

  /** The hash writes of Derive, in the order it makes them. */
  method HashInput(namespace: string, parts: seq<string>) returns (written: string)
    ensures written == Encoding(namespace, parts)
  {
    written := namespace;
    for i := 0 to |parts|
      invariant written == Encoding(namespace, parts[..i])
    {
      written := written + [NUL];
      written := written + parts[i];
      assert parts[..i + 1][..i] == parts[..i];
    }
    assert parts[..|parts|] == parts;
  }

  lemma {:induction false} LastFieldIsCut(a: string, b: string, x: string, y: string)
    requires NulFree(x) && NulFree(y) && a + [NUL] + x == b + [NUL] + y
    ensures a == b && x == y
  {
    var s, t := a + [NUL] + x, b + [NUL] + y;
    assert s[|a|] == NUL && t[|b|] == NUL;
    assert forall i :: |a| < i < |s| ==> s[i] == x[i - |a| - 1];
    assert forall i :: |b| < i < |t| ==> t[i] == y[i - |b| - 1];
    assert |a| == |b|;
    assert s[..|a|] == a && t[..|b|] == b;
    assert s[|a| + 1..] == x && t[|b| + 1..] == y;
  }

  lemma {:induction false} EncodingHasNul(namespace: string, parts: seq<string>)
    requires parts != []
    ensures !NulFree(Encoding(namespace, parts))
  {
    var s := Encoding(namespace, parts);
    assert s[|Encoding(namespace, parts[..|parts| - 1])|] == NUL;
  }

  /** Distinct NUL-free inputs are hashed from distinct bytes, whatever their number of parts. */
  lemma {:induction false} EncodingIsInjective(n: string, ps: seq<string>, m: string, qs: seq<string>)
    requires NulFree(n) && NulFree(m)
    requires forall p :: p in ps || p in qs ==> NulFree(p)
    requires Encoding(n, ps) == Encoding(m, qs)
    ensures n == m && ps == qs
    decreases |ps|
  {
    if ps == [] {
      if qs != [] {
        EncodingHasNul(m, qs);
      }
    } else if qs == [] {
      EncodingHasNul(n, ps);
    } else {
      var ps', p, qs', q := ps[..|ps| - 1], ps[|ps| - 1], qs[..|qs| - 1], qs[|qs| - 1];
      LastFieldIsCut(Encoding(n, ps'), Encoding(m, qs'), p, q);
      EncodingIsInjective(n, ps', m, qs');
      assert ps == ps' + [p] && qs == qs' + [q];
    }
  }

  /** The separator is all that protects it: a part holding NUL can pass for two parts. */
  lemma {:induction false} NulBreaksInjectivity()
    ensures Encoding("delivery", ["a" + [NUL] + "b"]) == Encoding("delivery", ["a", "b"])
  {
    assert ["a", "b"][..1] == ["a"];
    assert ["a"][..0] == [] && ["a" + [NUL] + "b"][..0] == [];
  }

  // ---- when two inputs collide, exactly ----

  /** A string cut at every NUL. */
  function Fields(s: string): (fs: seq<string>)
    ensures fs != []
  {
    if s == "" then [""]
    else if s[0] == NUL then [""] + Fields(s[1..])
    else
      var fs := Fields(s[1..]);
      [[s[0]] + fs[0]] + fs[1..]
  }

  /** The fields of the namespace and of every part, one after the other. */
  function AllFields(namespace: string, parts: seq<string>): (fs: seq<string>)
    ensures fs != []
  {
    if parts == [] then Fields(namespace)
    else AllFields(namespace, parts[..|parts| - 1]) + Fields(parts[|parts| - 1])
  }

  function Joined(fs: seq<string>): string
    requires fs != []
  {
    if |fs| == 1 then fs[0] else fs[0] + [NUL] + Joined(fs[1..])
  }

  lemma {:induction false} JoinedFields(s: string)
    ensures Joined(Fields(s)) == s
  {
    if s != "" {
      var fs := Fields(s[1..]);
      JoinedFields(s[1..]);
      if s[0] == NUL {
        assert ([""] + fs)[1..] == fs;
      } else {
        assert ([[s[0]] + fs[0]] + fs[1..])[1..] == fs[1..];
        assert s == [s[0]] + s[1..];
      }
    }
  }

  lemma {:induction false} FieldsOfTwo(a: string, b: string)
    ensures Fields(a + [NUL] + b) == Fields(a) + Fields(b)
  {
    var s := a + [NUL] + b;
    if a == "" {
      assert s[1..] == b;
    } else {
      assert s[1..] == a[1..] + [NUL] + b;
      FieldsOfTwo(a[1..], b);
    }
  }

  lemma {:induction false} FieldsOfEncoding(namespace: string, parts: seq<string>)
    ensures Fields(Encoding(namespace, parts)) == AllFields(namespace, parts)
    decreases |parts|
  {
    if parts != [] {
      FieldsOfEncoding(namespace, parts[..|parts| - 1]);
      FieldsOfTwo(Encoding(namespace, parts[..|parts| - 1]), parts[|parts| - 1]);
    }
  }

  /** Two inputs are hashed from the same bytes if and only if they have the same NUL-separated fields. */
  lemma {:induction false} EncodingsCollideIff(n: string, ps: seq<string>, m: string, qs: seq<string>)
    ensures Encoding(n, ps) == Encoding(m, qs) <==> AllFields(n, ps) == AllFields(m, qs)
  {
    FieldsOfEncoding(n, ps);
    FieldsOfEncoding(m, qs);
    JoinedFields(Encoding(n, ps));
    JoinedFields(Encoding(m, qs));
  }

  /**
   * The id of the delivery of event e to endpoint ep. The hash is taken to be
   * collision-free, so its input stands for its output.
   */
  function DeliveryId(e: Id, ep: Id): Id {
    "dlv_" + Encoding("delivery", [e, ep])
  }

  lemma {:induction false} DeliveryIdLayout(e: Id, ep: Id)
    ensures DeliveryId(e, ep) == ("dlv_" + "delivery" + [NUL] + e) + [NUL] + ep
  {
    assert [e, ep][..1] == [e] && [e][..0] == [];
    assert Encoding("delivery", [e]) == "delivery" + [NUL] + e;
    assert Encoding("delivery", [e, ep]) == Encoding("delivery", [e]) + [NUL] + ep;
  }

  /** For one event, different endpoints get different deliveries (NUL or not). */
  lemma {:induction false} EndpointsDoNotCollide(e: Id, ep: Id, ep': Id)
    requires DeliveryId(e, ep) == DeliveryId(e, ep')
    ensures ep == ep'
  {
    DeliveryIdLayout(e, ep);
    DeliveryIdLayout(e, ep');
    var p := ("dlv_" + "delivery" + [NUL] + e) + [NUL];
    assert (p + ep)[|p|..] == ep && (p + ep')[|p|..] == ep';
  }

  lemma {:induction false} DeliveriesDoNotCollide(e: Id, ep: Id, e': Id, ep': Id)
    requires NulFree(e) && NulFree(ep) && NulFree(e') && NulFree(ep')
    requires DeliveryId(e, ep) == DeliveryId(e', ep')
    ensures e == e' && ep == ep'
  {
    assert DeliveryId(e, ep)[4..] == Encoding("delivery", [e, ep]);
    assert DeliveryId(e', ep')[4..] == Encoding("delivery", [e', ep']);
    EncodingIsInjective("delivery", [e, ep], "delivery", [e', ep']);
    assert [e, ep][0] == [e', ep'][0] && [e, ep][1] == [e', ep'][1];
  }
}
