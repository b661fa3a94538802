/** Byte strings as the store orders them, and the big-endian numbers inside index keys. */
module Lex {
  import opened Prelude

  /** Lexicographic order. */
  predicate Less(a: Bytes, b: Bytes) {
    b != [] && (a == [] || a[0] < b[0] || (a[0] == b[0] && Less(a[1..], b[1..])))
  }

  predicate AtMost(a: Bytes, b: Bytes) {
    a == b || Less(a, b)
  }

  lemma {:induction false} Trichotomy(a: Bytes, b: Bytes)
    ensures Less(a, b) || a == b || Less(b, a)
    ensures !(Less(a, b) && Less(b, a)) && (a == b ==> !Less(a, b))
  {
    if a != [] && b != [] {
      Trichotomy(a[1..], b[1..]);
      if a[0] == b[0] && a[1..] == b[1..] {
        assert a == [a[0]] + a[1..] && b == [b[0]] + b[1..];
      }
    }
  }

  lemma {:induction false} Transitive(a: Bytes, b: Bytes, c: Bytes)
    requires Less(a, b) && Less(b, c)
    ensures Less(a, c)
  {
    if a != [] && a[0] == b[0] && b[0] == c[0] {
      Transitive(a[1..], b[1..], c[1..]);
    }
  }

  /** A common prefix does not matter. */
  lemma {:induction false} CancelPrefix(p: Bytes, a: Bytes, b: Bytes)
    ensures Less(p + a, p + b) <==> Less(a, b)
  {
    if p == [] {
      assert p + a == a && p + b == b;
    } else {
      assert (p + a)[1..] == p[1..] + a && (p + b)[1..] == p[1..] + b;
      CancelPrefix(p[1..], a, b);
    }
  }

  /** Prefixes of equal length decide the order before anything that follows them. */
  lemma {:induction false} PrefixDecides(p: Bytes, q: Bytes, a: Bytes, b: Bytes)
    requires |p| == |q| && Less(p, q)
    ensures Less(p + a, q + b)
  {
    assert (p + a)[1..] == p[1..] + a && (q + b)[1..] == q[1..] + b;
    if p[0] == q[0] {
      PrefixDecides(p[1..], q[1..], a, b);
    }
  }

  /** `key || 0x00` is the immediate successor of `key`: nothing lies in between. */
  lemma {:induction false} ZeroSuffixIsSuccessor(key: Bytes, k: Bytes)
    ensures Less(key, k) <==> AtMost(key + [0], k)
  {
    if key == [] {
      var zero: Bytes := [0];
      assert key + [0] == zero && zero[1..] == [];
      if k != [] {
        if k[0] == 0 && k[1..] == [] {
          assert k == zero;
        } else {
          assert k[0] == 0 ==> Less(zero[1..], k[1..]);
          assert Less(zero, k);
        }
      }
    } else if k != [] {
      assert (key + [0])[1..] == key[1..] + [0];
      ZeroSuffixIsSuccessor(key[1..], k[1..]);
      if k[0] == key[0] && k[1..] == key[1..] + [0] {
        assert k == [k[0]] + k[1..] && key + [0] == [key[0]] + (key[1..] + [0]);
      }
    }
  }

  function Power256(n: nat): (p: nat)
    ensures p >= 1
  {
    if n == 0 then 1 else 256 * Power256(n - 1)
  }

  /** `v` in `n` big-endian bytes. */
  function BigEndian(n: nat, v: nat): (b: Bytes)
    ensures |b| == n
  {
    if n == 0 then [] else BigEndian(n - 1, v / 256) + [v % 256]
  }

  function FromBigEndian(b: Bytes): nat {
    if b == [] then 0 else 256 * FromBigEndian(b[..|b| - 1]) + b[|b| - 1]
  }

  lemma {:induction false} BigEndianRoundTrip(n: nat, v: nat)
    requires v < Power256(n)
    ensures FromBigEndian(BigEndian(n, v)) == v
  {
    if n > 0 {
      var b := BigEndian(n, v);
      assert b[..n - 1] == BigEndian(n - 1, v / 256);
      BigEndianRoundTrip(n - 1, v / 256);
    }
  }

  /** Big-endian bytes order as the numbers do. */
  lemma {:induction false} BigEndianOrders(n: nat, v: nat, w: nat)
    requires v < w < Power256(n)
    ensures Less(BigEndian(n, v), BigEndian(n, w))
  {
    if v / 256 < w / 256 {
      BigEndianOrders(n - 1, v / 256, w / 256);
      PrefixDecides(BigEndian(n - 1, v / 256), BigEndian(n - 1, w / 256), [v % 256], [w % 256]);
    } else {
      CancelPrefix(BigEndian(n - 1, v / 256), [v % 256], [w % 256]);
    }
  }

  lemma U64FitsEightBytes(v: nat)
    ensures v < U64_LIMIT <==> v < Power256(8)
  {
    assert Power256(8) == 256 * (256 * (256 * (256 * (256 * (256 * (256 * (256 * Power256(0))))))));
  }

  // ---------- sorted listings ----------

  type Row = (Bytes, Bytes)

  predicate Sorted(rows: seq<Row>) {
    forall i, j :: 0 <= i < j < |rows| ==> Less(rows[i].0, rows[j].0)
  }

  /** The store's rows in key order. */
  ghost predicate Lists(rows: seq<Row>, db: map<Bytes, Bytes>) {
    && Sorted(rows)
    && (forall i :: 0 <= i < |rows| ==> rows[i].0 in db && db[rows[i].0] == rows[i].1)
    && (forall k :: k in db ==> exists i :: 0 <= i < |rows| && rows[i].0 == k)
  }
}
