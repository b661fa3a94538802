/** The canonical-filtered, cursor-paged scans over the game indexes. A store is its rows in key
    order; a scan walks a key range, skips what is not canonical, and stops at its limit. */
module GameScans {
  import opened Prelude
  import opened Lex
  import opened GameIndex
  import opened GameIndexProofs

  // ---------- ranges and pages of keys ----------

  predicate HasPrefix(k: Bytes, p: Bytes) {
    |p| <= |k| && k[..|p|] == p
  }

  predicate InRange(k: Bytes, start: Bytes, end: Bytes) {
    AtMost(start, k) && Less(k, end)
  }

  /** The store's iterator over `start..end`. */
  function RangeIter(rows: seq<Row>, start: Bytes, end: Bytes): seq<Row> {
    if rows == [] then []
    else (if InRange(rows[0].0, start, end) then [rows[0]] else []) + RangeIter(rows[1..], start, end)
  }

  /** The keys of the rows that pass the filter. */
  function Kept(rows: seq<Row>, keep: Row -> bool): seq<Bytes> {
    if rows == [] then []
    else (if keep(rows[0]) then [rows[0].0] else []) + Kept(rows[1..], keep)
  }

  /** The unlimited, uncursored scan: the kept keys under a prefix. */
  function Stream(rows: seq<Row>, prefix: Bytes, keep: Row -> bool): seq<Bytes> {
    if rows == [] then []
    else
      (if HasPrefix(rows[0].0, prefix) && keep(rows[0]) then [rows[0].0] else [])
      + Stream(rows[1..], prefix, keep)
  }

  /** What comes strictly after the cursor. */
  function After(keys: seq<Bytes>, cursor: Option<Bytes>): seq<Bytes> {
    if keys == [] then []
    else
      (if cursor.None? || Less(cursor.value, keys[0]) then [keys[0]] else []) + After(keys[1..], cursor)
  }

  function Take<T>(s: seq<T>, n: nat): seq<T> {
    if |s| <= n then s else s[..n]
  }

  predicate Ascending(keys: seq<Bytes>) {
    forall i, j :: 0 <= i < j < |keys| ==> Less(keys[i], keys[j])
  }

  lemma OneByteRange(b: u8, k: Bytes)
    requires b < 255
    ensures InRange(k, [b], [b + 1]) <==> HasPrefix(k, [b])
  {
    var lo: Bytes, hi: Bytes := [b], [b + 1];
    if k != [] {
      AtMostStep(lo, k);
      Trichotomy([], k[1..]);
      assert lo[1..] == [] && hi[1..] == [] && k[..1] == [k[0]];
    }
  }

  /** The keys between a prefix and its successor are exactly those that carry the prefix. */
  lemma {:induction false} RangeIsPrefix(q: Bytes, b: u8, k: Bytes)
    requires b < 255
    ensures InRange(k, q + [b], q + [b + 1]) <==> HasPrefix(k, q + [b])
  {
    if q == [] {
      var lo: Bytes, hi: Bytes := [b], [b + 1];
      assert q + [b] == lo && q + [b + 1] == hi;
      OneByteRange(b, k);
    } else if k != [] {
      assert (q + [b])[1..] == q[1..] + [b] && (q + [b + 1])[1..] == q[1..] + [b + 1];
      RangeIsPrefix(q[1..], b, k[1..]);
      PrefixStep(k, q + [b]);
      AtMostStep(q + [b], k);
    }
  }

  lemma PrefixStep(k: Bytes, p: Bytes)
    requires k != [] && p != []
    ensures HasPrefix(k, p) <==> k[0] == p[0] && HasPrefix(k[1..], p[1..])
  {
    if |p| <= |k| {
      assert k[..|p|] == [k[0]] + k[1..][..|p| - 1];
      assert p == [p[0]] + p[1..];
    }
  }

  lemma AtMostStep(a: Bytes, k: Bytes)
    requires a != [] && k != []
    ensures AtMost(a, k) <==> a[0] < k[0] || (a[0] == k[0] && AtMost(a[1..], k[1..]))
  {
    assert a == [a[0]] + a[1..] && k == [k[0]] + k[1..];
  }

  /** How a scan's start bound relates to its cursor. */
  ghost predicate Starts(start: Bytes, prefix: Bytes, cursor: Option<Bytes>, rows: seq<Row>) {
    forall i :: 0 <= i < |rows| ==>
      (HasPrefix(rows[i].0, prefix) ==>
         (AtMost(start, rows[i].0) <==> cursor.None? || Less(cursor.value, rows[i].0)))
      && (AtMost(start, rows[i].0) ==> AtMost(prefix, rows[i].0))
  }

  /** The end bound cuts exactly at the prefix, and the start bound exactly after the cursor. */
  lemma {:induction false} ScanIsAfter(rows: seq<Row>, q: Bytes, b: u8, start: Bytes, cursor: Option<Bytes>,
                                       keep: Row -> bool)
    requires b < 255 && Starts(start, q + [b], cursor, rows)
    ensures Kept(RangeIter(rows, start, q + [b + 1]), keep) == After(Stream(rows, q + [b], keep), cursor)
  {
    if rows != [] {
      var k := rows[0].0;
      RangeIsPrefix(q, b, k);
      assert InRange(k, start, q + [b + 1]) <==>
             HasPrefix(k, q + [b]) && (cursor.None? || Less(cursor.value, k));
      assert forall i :: 0 <= i < |rows[1..]| ==> rows[1..][i] == rows[i + 1];
      ScanIsAfter(rows[1..], q, b, start, cursor, keep);
      KeptHead(rows, start, q + [b + 1], keep);
      AfterHead(rows, q + [b], keep, cursor);
    }
  }

  lemma KeptHead(rows: seq<Row>, start: Bytes, end: Bytes, keep: Row -> bool)
    requires rows != []
    ensures Kept(RangeIter(rows, start, end), keep) ==
            (if InRange(rows[0].0, start, end) && keep(rows[0]) then [rows[0].0] else [])
            + Kept(RangeIter(rows[1..], start, end), keep)
  {
    var rest := RangeIter(rows[1..], start, end);
    if InRange(rows[0].0, start, end) {
      assert ([rows[0]] + rest)[1..] == rest;
    } else {
      assert [] + rest == rest;
    }
  }

  lemma AfterHead(rows: seq<Row>, prefix: Bytes, keep: Row -> bool, cursor: Option<Bytes>)
    requires rows != []
    ensures After(Stream(rows, prefix, keep), cursor) ==
            (if HasPrefix(rows[0].0, prefix) && keep(rows[0]) && (cursor.None? || Less(cursor.value, rows[0].0))
             then [rows[0].0] else [])
            + After(Stream(rows[1..], prefix, keep), cursor)
  {
    var rest := Stream(rows[1..], prefix, keep);
    if HasPrefix(rows[0].0, prefix) && keep(rows[0]) {
      assert ([rows[0].0] + rest)[1..] == rest;
    } else {
      assert [] + rest == rest;
    }
  }

  // ---------- paging ----------

  lemma {:induction false} AfterNone(keys: seq<Bytes>)
    ensures After(keys, None) == keys
  {
    if keys != [] {
      AfterNone(keys[1..]);
      assert keys == [keys[0]] + keys[1..];
    }
  }

  lemma FirstIncluded(keys: seq<Bytes>, cursor: Option<Bytes>)
    requires keys != [] && (cursor.None? || Less(cursor.value, keys[0]))
    ensures After(keys, cursor) == [keys[0]] + After(keys[1..], cursor)
  {
  }

  lemma FirstSkipped(keys: seq<Bytes>, last: Bytes)
    requires keys != [] && !Less(last, keys[0])
    ensures After(keys, Some(last)) == After(keys[1..], Some(last))
  {
    assert [] + After(keys[1..], Some(last)) == After(keys[1..], Some(last));
  }

  /** No later key comes before the first. */
  lemma FirstComesFirst(keys: seq<Bytes>, cursor: Option<Bytes>, i: nat)
    requires Ascending(keys) && keys != [] && i < |After(keys[1..], cursor)|
    ensures !Less(After(keys[1..], cursor)[i], keys[0])
  {
    AfterMembers(keys[1..], cursor, i);
    var j :| 0 <= j < |keys[1..]| && keys[1..][j] == After(keys[1..], cursor)[i];
    assert keys[1..][j] == keys[j + 1];
    Trichotomy(keys[0], keys[j + 1]);
  }

  lemma DropOne(x: Bytes, tail: seq<Bytes>, n: nat)
    requires 0 < n <= |tail| + 1
    ensures ([x] + tail)[n..] == tail[n - 1..]
    ensures n > 1 ==> ([x] + tail)[n - 1] == tail[n - 2]
    ensures n == 1 ==> ([x] + tail)[n..] == tail
  {
  }

  /** The page is the first key alone. */
  lemma PageIsFirst(keys: seq<Bytes>, cursor: Option<Bytes>)
    requires Ascending(keys) && keys != [] && (cursor.None? || Less(cursor.value, keys[0]))
    ensures After(keys, Some(keys[0])) == After(keys[1..], cursor)
  {
    RestAscends(keys);
    Trichotomy(keys[0], keys[0]);
    FirstSkipped(keys, keys[0]);
    AllAfterSmaller(keys[1..], keys[0], cursor);
  }

  /** Over ascending keys, what follows the n-th key after a cursor is the rest of what followed the
      cursor. */
  lemma {:induction false} AfterPage(keys: seq<Bytes>, cursor: Option<Bytes>, n: nat)
    requires Ascending(keys) && 0 < n <= |After(keys, cursor)|
    ensures After(keys, Some(After(keys, cursor)[n - 1])) == After(keys, cursor)[n..]
  {
    var tail := After(keys[1..], cursor);
    RestAscends(keys);
    if cursor.Some? && !Less(cursor.value, keys[0]) {
      FirstSkipped(keys, cursor.value);
      FirstComesFirst(keys, cursor, n - 1);
      FirstSkipped(keys, tail[n - 1]);
      AfterPage(keys[1..], cursor, n);
    } else {
      FirstIncluded(keys, cursor);
      DropOne(keys[0], tail, n);
      if n > 1 {
        FirstComesFirst(keys, cursor, n - 2);
        FirstSkipped(keys, tail[n - 2]);
        AfterPage(keys[1..], cursor, n - 1);
      } else {
        PageIsFirst(keys, cursor);
      }
    }
  }

  lemma RestAscends(keys: seq<Bytes>)
    requires Ascending(keys) && keys != []
    ensures Ascending(keys[1..])
    ensures forall i :: 0 <= i < |keys[1..]| ==> Less(keys[0], keys[1..][i])
  {
    assert forall i :: 0 <= i < |keys[1..]| ==> keys[1..][i] == keys[i + 1];
  }

  /** Elements after a cursor are elements of the list. */
  lemma {:induction false} AfterMembers(keys: seq<Bytes>, cursor: Option<Bytes>, i: nat)
    requires i < |After(keys, cursor)|
    ensures exists j :: 0 <= j < |keys| && keys[j] == After(keys, cursor)[i]
  {
    var mine := if cursor.None? || Less(cursor.value, keys[0]) then [keys[0]] else [];
    if i < |mine| {
      assert keys[0] == After(keys, cursor)[i];
    } else {
      AfterMembers(keys[1..], cursor, i - |mine|);
      var j :| 0 <= j < |keys[1..]| && keys[1..][j] == After(keys[1..], cursor)[i - |mine|];
      assert keys[j + 1] == After(keys, cursor)[i];
    }
  }

  /** Keys that all lie above `low`, with `low` itself after the cursor, are all after both. */
  lemma {:induction false} AllAfterSmaller(keys: seq<Bytes>, low: Bytes, cursor: Option<Bytes>)
    requires forall i :: 0 <= i < |keys| ==> Less(low, keys[i])
    requires cursor.None? || Less(cursor.value, low)
    ensures After(keys, Some(low)) == After(keys, cursor) == keys
  {
    if keys != [] {
      if cursor.Some? {
        Transitive(cursor.value, low, keys[0]);
      }
      assert forall i :: 0 <= i < |keys[1..]| ==> keys[1..][i] == keys[i + 1];
      AllAfterSmaller(keys[1..], low, cursor);
      assert keys == [keys[0]] + keys[1..];
    }
  }

  /** Every page from the cursor on, each page's last key being the next page's cursor, until a page
      comes back empty. */
  function Walk(keys: seq<Bytes>, cursor: Option<Bytes>, limit: nat): seq<Bytes>
    requires Ascending(keys) && limit > 0
    decreases |After(keys, cursor)|
  {
    var page := Take(After(keys, cursor), limit);
    if page == [] then []
    else
      AfterPage(keys, cursor, |page|);
      page + Walk(keys, Some(page[|page| - 1]), limit)
  }

  lemma Rejoin(s: seq<Bytes>, n: nat)
    requires n <= |s|
    ensures s[..n] + s[n..] == s
  {
  }

  /** Paging loses and repeats nothing: for any positive limit the pages concatenate to the unlimited
      scan. */
  lemma {:induction false} PagesCoverTheScan(keys: seq<Bytes>, cursor: Option<Bytes>, limit: nat)
    requires Ascending(keys) && limit > 0
    ensures Walk(keys, cursor, limit) == After(keys, cursor)
    decreases |After(keys, cursor)|
  {
    var all := After(keys, cursor);
    var page := Take(all, limit);
    if page != [] {
      var last := Some(page[|page| - 1]);
      AfterPage(keys, cursor, |page|);
      PagesCoverTheScan(keys, last, limit);
      Rejoin(all, |page|);
    }
  }

  lemma PagesCoverTheWholeScan(keys: seq<Bytes>, limit: nat)
    requires Ascending(keys) && limit > 0
    ensures Walk(keys, None, limit) == keys
  {
    PagesCoverTheScan(keys, None, limit);
    AfterNone(keys);
  }

  // ---------- player events ----------

  datatype Cursor = Cursor(version: u64, game: Id32)

  predicate IsEventKey(k: Bytes) {
    |k| == 74 && k[0] == 1 && 1 <= k[33] <= 5
  }

  predicate IsStatusKey(k: Bytes) {
    |k| == 34 && k[0] == 2 && k[1] <= 2
  }

  /** No malformed key where the scans look. */
  predicate WellKeyed(rows: seq<Row>) {
    forall i :: 0 <= i < |rows| ==>
      && (HasPrefix(rows[i].0, [1]) ==> IsEventKey(rows[i].0))
      && (HasPrefix(rows[i].0, [2]) ==> IsStatusKey(rows[i].0) && |rows[i].1| == 8)
  }

  lemma FromBigEndianBounded(b: Bytes)
    ensures FromBigEndian(b) < Power256(|b|)
  {
    if b != [] {
      FromBigEndianBounded(b[..|b| - 1]);
    }
  }

  lemma {:induction false} BigEndianOfBytes(b: Bytes)
    ensures BigEndian(|b|, FromBigEndian(b)) == b
  {
    if b != [] {
      BigEndianOfBytes(b[..|b| - 1]);
      assert b == b[..|b| - 1] + [b[|b| - 1]];
    }
  }

  /** The version and game an event key names. */
  function EventCursor(k: Bytes): (c: Cursor)
    requires IsEventKey(k)
  {
    FromBigEndianBounded(k[34..42]);
    U64FitsEightBytes(FromBigEndian(k[34..42]));
    Cursor(FromBigEndian(k[34..42]), k[42..74])
  }

  /** Parsing an event key and building it are inverse. */
  lemma EventKeyRoundTrip(k: Bytes, player: Id32, e: PlayerEvent)
    requires IsEventKey(k) && HasPrefix(k, EventPrefix(player, e))
    ensures k == EventKey(player, e, EventCursor(k).version, EventCursor(k).game)
  {
    BigEndianOfBytes(k[34..42]);
    assert k == k[..34] + (k[34..42] + k[42..74]);
  }

  /** Keeps event rows of canonical versions. */
  function CanonicalEvent(canonical: set<nat>): Row -> bool {
    (r: Row) => IsEventKey(r.0) && EventCursor(r.0).version in canonical
  }

  function CursorKey(player: Id32, e: PlayerEvent, c: Option<Cursor>): Option<Bytes> {
    if c.None? then None else Some(EventKey(player, e, c.value.version, c.value.game))
  }

  /** The keys of a page of cursors. */
  function EventKeysOf(player: Id32, e: PlayerEvent, page: seq<Cursor>): (keys: seq<Bytes>)
    ensures |keys| == |page|
  {
    seq(|page|, i requires 0 <= i < |page| => EventKey(player, e, page[i].version, page[i].game))
  }

  lemma {:induction false} ZerosAreLeast(z: Bytes, k: Bytes)
    requires |z| <= |k| && forall i :: 0 <= i < |z| ==> z[i] == 0
    ensures AtMost(z, k)
  {
    if z != [] {
      ZerosAreLeast(z[1..], k[1..]);
      AtMostStep(z, k);
    } else {
      Trichotomy([], k);
    }
  }

  lemma {:induction false} BigEndianOfZero(n: nat)
    ensures forall i :: 0 <= i < n ==> BigEndian(n, 0)[i] == 0
  {
    if n > 0 {
      BigEndianOfZero(n - 1);
    }
  }

  /** A proper extension comes after its prefix. */
  lemma PrefixComesFirst(p: Bytes, x: Bytes)
    requires x != []
    ensures Less(p, p + x)
  {
    CancelPrefix(p, [], x);
    assert p + [] == p;
  }

  /** Where an event scan starts: at version zero, or just after the cursor's own key. */
  function EventStart(player: Id32, e: PlayerEvent, after: Option<Cursor>): Bytes {
    if after.None? then EventPrefix(player, e) + BigEndian(8, 0)
    else EventKey(player, e, after.value.version, after.value.game) + [0]
  }

  lemma EventScanStarts(rows: seq<Row>, player: Id32, e: PlayerEvent, after: Option<Cursor>)
    requires WellKeyed(rows)
    ensures Starts(EventStart(player, e, after), EventPrefix(player, e), CursorKey(player, e, after), rows)
  {
    var prefix := EventPrefix(player, e);
    forall i | 0 <= i < |rows|
      ensures (HasPrefix(rows[i].0, prefix) ==>
                 (AtMost(EventStart(player, e, after), rows[i].0) <==>
                  after.None? || Less(CursorKey(player, e, after).value, rows[i].0)))
              && (AtMost(EventStart(player, e, after), rows[i].0) ==> AtMost(prefix, rows[i].0))
    {
      var k := rows[i].0;
      if after.None? {
        FirstStart(k, player, e);
      } else {
        CursorStart(k, player, e, after.value);
      }
    }
  }

  lemma FirstStart(k: Bytes, player: Id32, e: PlayerEvent)
    requires HasPrefix(k, [1]) ==> IsEventKey(k)
    ensures var prefix := EventPrefix(player, e);
            && (HasPrefix(k, prefix) ==> AtMost(prefix + BigEndian(8, 0), k))
            && (AtMost(prefix + BigEndian(8, 0), k) ==> AtMost(prefix, k))
  {
    var prefix := EventPrefix(player, e);
    PrefixComesFirst(prefix, BigEndian(8, 0));
    if Less(prefix + BigEndian(8, 0), k) {
      Transitive(prefix, prefix + BigEndian(8, 0), k);
    }
    if HasPrefix(k, prefix) {
      var one: Bytes := [1];
      assert k[..1] == one;
      BigEndianOfZero(8);
      ZerosAreLeast(BigEndian(8, 0), k[34..]);
      assert k == prefix + k[34..];
      CancelPrefix(prefix, BigEndian(8, 0), k[34..]);
    }
  }

  lemma CursorStart(k: Bytes, player: Id32, e: PlayerEvent, c: Cursor)
    ensures var key := EventKey(player, e, c.version, c.game);
            && (AtMost(key + [0], k) <==> Less(key, k))
            && (AtMost(key + [0], k) ==> AtMost(EventPrefix(player, e), k))
  {
    var key := EventKey(player, e, c.version, c.game);
    ZeroSuffixIsSuccessor(key, k);
    PrefixComesFirst(EventPrefix(player, e), BigEndian(8, c.version) + c.game);
    if Less(key, k) {
      Transitive(EventPrefix(player, e), key, k);
    }
  }

  /** A row the event range yields parses, and to a key of this very stream. */
  lemma EventRowInRange(rows: seq<Row>, r: Row, player: Id32, e: PlayerEvent, cursor: Option<Bytes>, start: Bytes)
    requires WellKeyed(rows) && r in rows && Starts(start, EventPrefix(player, e), cursor, rows)
    requires InRange(r.0, start, [1] + player + [EventByte(e) + 1])
    ensures IsEventKey(r.0)
    ensures r.0 == EventKey(player, e, EventCursor(r.0).version, EventCursor(r.0).game)
  {
    var i :| 0 <= i < |rows| && rows[i] == r;
    assert AtMost(EventPrefix(player, e), rows[i].0);
    RangeIsPrefix([1] + player, EventByte(e), r.0);
    assert r.0[..34] == EventPrefix(player, e);
    var one: Bytes := [1];
    assert r.0[..1] == one;
    EventKeyRoundTrip(r.0, player, e);
  }

  /** Event stream for one (player, event): ascending, canonical versions only, one page after the
      exclusive cursor. */
  method ScanPlayerEvents(rows: seq<Row>, canonical: set<nat>, player: Id32, e: PlayerEvent,
                          after: Option<Cursor>, limit: nat) returns (page: seq<Cursor>)
    requires WellKeyed(rows)
    ensures EventKeysOf(player, e, page) ==
            Take(After(Stream(rows, EventPrefix(player, e), CanonicalEvent(canonical)),
                       CursorKey(player, e, after)), limit)
  {
    page := [];
    if limit == 0 {
      return;
    }
    var head: Bytes := [1] + player;
    var start, end := head + [EventByte(e)], head + [EventByte(e) + 1];
    if after.Some? {
      start := EventKey(player, e, after.value.version, after.value.game) + [0];
    } else {
      start := start + BigEndian(8, 0);
    }
    assert start == EventStart(player, e, after);
    EventScanStarts(rows, player, e, after);
    ScanIsAfter(rows, head, EventByte(e), start, CursorKey(player, e, after), CanonicalEvent(canonical));
    var range := RangeIter(rows, start, end);
    EventRangeParses(rows, player, e, CursorKey(player, e, after), start);
    page := CollectEvents(range, canonical, player, e, limit);
  }

  predicate EventRow(r: Row, player: Id32, e: PlayerEvent) {
    IsEventKey(r.0) && r.0 == EventKey(player, e, EventCursor(r.0).version, EventCursor(r.0).game)
  }

  lemma EventRangeParses(rows: seq<Row>, player: Id32, e: PlayerEvent, cursor: Option<Bytes>, start: Bytes)
    requires WellKeyed(rows) && Starts(start, EventPrefix(player, e), cursor, rows)
    ensures var range := RangeIter(rows, start, [1] + player + [EventByte(e) + 1]);
            forall i :: 0 <= i < |range| ==> EventRow(range[i], player, e)
  {
    var end := [1] + player + [EventByte(e) + 1];
    var range := RangeIter(rows, start, end);
    RangeRows(rows, start, end);
    forall i | 0 <= i < |range| ensures EventRow(range[i], player, e) {
      EventRowInRange(rows, range[i], player, e, cursor, start);
    }
  }

  lemma EventKeysOfAppend(player: Id32, e: PlayerEvent, page: seq<Cursor>, c: Cursor)
    ensures EventKeysOf(player, e, page + [c])
         == EventKeysOf(player, e, page) + [EventKey(player, e, c.version, c.game)]
  {
  }

  /** What one more row adds to the kept keys. */
  lemma KeptStep(range: seq<Row>, i: nat, keep: Row -> bool)
    requires i < |range|
    ensures Kept(range[..i + 1], keep) == Kept(range[..i], keep) + (if keep(range[i]) then [range[i].0] else [])
    ensures |Kept(range[..i + 1], keep)| <= |Kept(range, keep)|
    ensures Kept(range, keep)[..|Kept(range[..i + 1], keep)|] == Kept(range[..i + 1], keep)
  {
    KeptAppend(range[..i], range[i], keep);
    assert range[..i + 1] == range[..i] + [range[i]];
    KeptPrefix(range, i + 1, keep);
  }

  /** Parses the rows of a range, keeps the canonical ones, and stops at the limit. */
  method CollectEvents(range: seq<Row>, canonical: set<nat>, player: Id32, e: PlayerEvent, limit: nat)
    returns (page: seq<Cursor>)
    requires limit > 0 && forall i :: 0 <= i < |range| ==> EventRow(range[i], player, e)
    ensures EventKeysOf(player, e, page) == Take(Kept(range, CanonicalEvent(canonical)), limit)
  {
    page := [];
    for i := 0 to |range|
      invariant |page| < limit
      invariant EventKeysOf(player, e, page) == Kept(range[..i], CanonicalEvent(canonical))
    {
      assert EventRow(range[i], player, e);
      KeptStep(range, i, CanonicalEvent(canonical));
      var cursor := EventCursor(range[i].0);
      if cursor.version in canonical {
        EventKeysOfAppend(player, e, page, cursor);
        page := page + [cursor];
        if |page| == limit {
          return;
        }
      }
    }
    assert range[..|range|] == range;
  }

  /** Every row of a range is a row of the store inside the bounds. */
  lemma {:induction false} RangeRows(rows: seq<Row>, start: Bytes, end: Bytes)
    ensures forall i :: 0 <= i < |RangeIter(rows, start, end)| ==>
              RangeIter(rows, start, end)[i] in rows && InRange(RangeIter(rows, start, end)[i].0, start, end)
  {
    if rows != [] {
      RangeRows(rows[1..], start, end);
    }
  }

  lemma {:induction false} KeptAppend(rows: seq<Row>, r: Row, keep: Row -> bool)
    ensures Kept(rows + [r], keep) == Kept(rows, keep) + (if keep(r) then [r.0] else [])
  {
    if rows != [] {
      assert (rows + [r])[1..] == rows[1..] + [r];
      KeptAppend(rows[1..], r, keep);
    }
  }

  lemma {:induction false} KeptPrefix(rows: seq<Row>, n: nat, keep: Row -> bool)
    requires n <= |rows|
    ensures |Kept(rows[..n], keep)| <= |Kept(rows, keep)|
    ensures Kept(rows, keep)[..|Kept(rows[..n], keep)|] == Kept(rows[..n], keep)
    decreases |rows| - n
  {
    if n == |rows| {
      assert rows[..n] == rows;
    } else {
      KeptPrefix(rows, n + 1, keep);
      assert rows[..n + 1] == rows[..n] + [rows[n]];
      KeptAppend(rows[..n], rows[n], keep);
    }
  }

  // ---------- games by status ----------

  /** Keeps status rows whose stored version is canonical. */
  function CanonicalStatus(canonical: set<nat>): Row -> bool {
    (r: Row) => FromBigEndian(r.1) in canonical
  }

  function GameCursorKey(s: GameStatus, game: Option<Id32>): Option<Bytes> {
    if game.None? then None else Some(StatusKey(s, game.value))
  }

  function StatusKeysOf(s: GameStatus, page: seq<Id32>): (keys: seq<Bytes>)
    ensures |keys| == |page|
  {
    seq(|page|, i requires 0 <= i < |page| => StatusKey(s, page[i]))
  }

  function StatusStart(s: GameStatus, after: Option<Id32>): Bytes {
    if after.None? then StatusPrefix(s) else StatusKey(s, after.value) + [0]
  }

  lemma StatusScanStarts(rows: seq<Row>, s: GameStatus, after: Option<Id32>)
    requires WellKeyed(rows)
    ensures Starts(StatusStart(s, after), StatusPrefix(s), GameCursorKey(s, after), rows)
  {
    var prefix := StatusPrefix(s);
    forall i | 0 <= i < |rows|
      ensures (HasPrefix(rows[i].0, prefix) ==>
                 (AtMost(StatusStart(s, after), rows[i].0) <==>
                  after.None? || Less(GameCursorKey(s, after).value, rows[i].0)))
              && (AtMost(StatusStart(s, after), rows[i].0) ==> AtMost(prefix, rows[i].0))
    {
      var k := rows[i].0;
      if after.None? {
        if HasPrefix(k, prefix) {
          CancelPrefix(prefix, [], k[2..]);
          assert k == prefix + k[2..] && prefix + [] == prefix;
        }
      } else {
        ZeroSuffixIsSuccessor(StatusKey(s, after.value), k);
        PrefixComesFirst(prefix, after.value);
        if Less(StatusKey(s, after.value), k) {
          Transitive(prefix, StatusKey(s, after.value), k);
        }
      }
    }
  }

  /** A row the status range yields parses, and to a key of this very bucket. */
  lemma StatusRowInRange(rows: seq<Row>, r: Row, s: GameStatus, cursor: Option<Bytes>, start: Bytes)
    requires WellKeyed(rows) && r in rows && Starts(start, StatusPrefix(s), cursor, rows)
    requires InRange(r.0, start, [2, StatusByte(s) + 1])
    ensures IsStatusKey(r.0) && |r.1| == 8
    ensures r.0 == StatusKey(s, r.0[2..])
  {
    var i :| 0 <= i < |rows| && rows[i] == r;
    var two: Bytes := [2];
    assert AtMost(StatusPrefix(s), rows[i].0);
    assert two + [StatusByte(s)] == StatusPrefix(s) && two + [StatusByte(s) + 1] == [2, StatusByte(s) + 1];
    RangeIsPrefix(two, StatusByte(s), r.0);
    assert r.0[..1] == two;
    assert r.0 == r.0[..2] + r.0[2..];
  }

  /** Games in one bucket: id ascending, canonical versions only, one page after the exclusive
      cursor. */
  method ScanGamesByStatus(rows: seq<Row>, canonical: set<nat>, s: GameStatus, after: Option<Id32>, limit: nat)
    returns (page: seq<Id32>)
    requires WellKeyed(rows)
    ensures StatusKeysOf(s, page) ==
            Take(After(Stream(rows, StatusPrefix(s), CanonicalStatus(canonical)), GameCursorKey(s, after)), limit)
  {
    page := [];
    if limit == 0 {
      return;
    }
    var start: Bytes, end: Bytes := [2, StatusByte(s)], [2, StatusByte(s) + 1];
    if after.Some? {
      start := StatusKey(s, after.value) + [0];
    }
    ghost var two: Bytes := [2];
    assert two + [StatusByte(s)] == StatusPrefix(s) && two + [StatusByte(s) + 1] == end;
    StatusScanStarts(rows, s, after);
    ScanIsAfter(rows, two, StatusByte(s), start, GameCursorKey(s, after), CanonicalStatus(canonical));
    var range := RangeIter(rows, start, end);
    StatusRangeParses(rows, s, GameCursorKey(s, after), start);
    page := CollectGames(range, canonical, s, limit);
  }

  predicate StatusRow(r: Row, s: GameStatus) {
    IsStatusKey(r.0) && r.0 == StatusKey(s, r.0[2..])
  }

  lemma StatusRangeParses(rows: seq<Row>, s: GameStatus, cursor: Option<Bytes>, start: Bytes)
    requires WellKeyed(rows) && Starts(start, StatusPrefix(s), cursor, rows)
    ensures var range := RangeIter(rows, start, [2, StatusByte(s) + 1]);
            forall i :: 0 <= i < |range| ==> StatusRow(range[i], s)
  {
    var range := RangeIter(rows, start, [2, StatusByte(s) + 1]);
    RangeRows(rows, start, [2, StatusByte(s) + 1]);
    forall i | 0 <= i < |range| ensures StatusRow(range[i], s) {
      StatusRowInRange(rows, range[i], s, cursor, start);
    }
  }

  lemma StatusKeysOfAppend(s: GameStatus, page: seq<Id32>, game: Id32)
    ensures StatusKeysOf(s, page + [game]) == StatusKeysOf(s, page) + [StatusKey(s, game)]
  {
  }

  /** Parses the rows of a bucket's range, keeps the canonical ones, and stops at the limit. */
  method CollectGames(range: seq<Row>, canonical: set<nat>, s: GameStatus, limit: nat) returns (page: seq<Id32>)
    requires limit > 0 && forall i :: 0 <= i < |range| ==> StatusRow(range[i], s)
    ensures StatusKeysOf(s, page) == Take(Kept(range, CanonicalStatus(canonical)), limit)
  {
    page := [];
    for i := 0 to |range|
      invariant |page| < limit
      invariant StatusKeysOf(s, page) == Kept(range[..i], CanonicalStatus(canonical))
    {
      assert StatusRow(range[i], s);
      KeptStep(range, i, CanonicalStatus(canonical));
      if FromBigEndian(range[i].1) in canonical {
        var game: Id32 := range[i].0[2..];
        StatusKeysOfAppend(s, page, game);
        page := page + [game];
        if |page| == limit {
          return;
        }
      }
    }
    assert range[..|range|] == range;
  }

  // ---------- the scans against the history ----------

  lemma {:induction false} StreamMembers(rows: seq<Row>, prefix: Bytes, keep: Row -> bool, k: Bytes)
    ensures k in Stream(rows, prefix, keep) <==>
            exists i :: 0 <= i < |rows| && rows[i].0 == k && HasPrefix(k, prefix) && keep(rows[i])
  {
    if rows != [] {
      StreamMembers(rows[1..], prefix, keep, k);
      var rest := Stream(rows[1..], prefix, keep);
      assert k in Stream(rows, prefix, keep) <==>
             (rows[0].0 == k && HasPrefix(k, prefix) && keep(rows[0])) || k in rest;
      assert forall i :: 0 <= i < |rows[1..]| ==> rows[1..][i] == rows[i + 1];
    }
  }

  lemma {:induction false} StreamAscending(rows: seq<Row>, prefix: Bytes, keep: Row -> bool)
    requires Sorted(rows)
    ensures Ascending(Stream(rows, prefix, keep))
  {
    if rows != [] {
      assert forall i :: 0 <= i < |rows[1..]| ==> rows[1..][i] == rows[i + 1];
      StreamAscending(rows[1..], prefix, keep);
      var rest := Stream(rows[1..], prefix, keep);
      forall j | 0 <= j < |rest| ensures Less(rows[0].0, rest[j]) {
        StreamMembers(rows[1..], prefix, keep, rest[j]);
        var i :| 0 <= i < |rows[1..]| && rows[1..][i].0 == rest[j];
        assert Less(rows[0].0, rows[i + 1].0);
      }
    }
  }

  function Versions(h: History): set<nat> {
    set i | 0 <= i < |h| :: h[i].version as nat
  }

  /** The status index refines a filter: the unlimited scan of a bucket yields, in ascending id order,
      exactly the games whose current state maps to it, whatever was reverted before. */
  lemma StatusScanIsExact(w: World, rows: seq<Row>, s: GameStatus)
    requires Exact(w) && Lists(rows, w.db)
    ensures var scan := Stream(rows, StatusPrefix(s), CanonicalStatus(Versions(w.h)));
            && Ascending(scan)
            && forall game: Id32 :: StatusKey(s, game) in scan <==> Status(StateOf(w.h, game)) == Some(s)
  {
    var keep := CanonicalStatus(Versions(w.h));
    StreamAscending(rows, StatusPrefix(s), keep);
    forall game: Id32
      ensures StatusKey(s, game) in Stream(rows, StatusPrefix(s), keep) <==> Status(StateOf(w.h, game)) == Some(s)
    {
      StatusKeyInScan(w, rows, s, game);
    }
  }

  /** Whether an unlimited scan of the bucket lists the game. */
  predicate Listed(w: World, rows: seq<Row>, s: GameStatus, game: Id32) {
    StatusKey(s, game) in Stream(rows, StatusPrefix(s), CanonicalStatus(Versions(w.h)))
  }

  /** The buckets by the state of their games: waiting for a joiner, being played, or ended in any way. */
  lemma BucketsByState(w: World, rows: seq<Row>, game: Id32)
    requires Exact(w) && Lists(rows, w.db)
    ensures var g := StateOf(w.h, game);
      && (Listed(w, rows, IsOpen, game) <==> g.Some? && g.value.state.Open?)
      && (Listed(w, rows, IsPlaying, game) <==> g.Some? && g.value.state.Playing?)
      && (Listed(w, rows, IsFinished, game) <==>
          g.Some? && (g.value.state.First? || g.value.state.Second? || g.value.state.Draw?))
  {
    StatusKeyInScan(w, rows, IsOpen, game);
    StatusKeyInScan(w, rows, IsPlaying, game);
    StatusKeyInScan(w, rows, IsFinished, game);
  }

  lemma StatusKeyInScan(w: World, rows: seq<Row>, s: GameStatus, game: Id32)
    requires Exact(w) && Lists(rows, w.db)
    ensures StatusKey(s, game) in Stream(rows, StatusPrefix(s), CanonicalStatus(Versions(w.h))) <==>
            Status(StateOf(w.h, game)) == Some(s)
  {
    var k := StatusKey(s, game);
    StreamMembers(rows, StatusPrefix(s), CanonicalStatus(Versions(w.h)), k);
    assert StatusExact(w, game);
    if k in w.db {
      var i :| 0 <= i < |rows| && rows[i].0 == k;
      var v: u64 :| w.db[k] == BigEndian(8, v) && OnHistory(w.h, game, v);
      U64FitsEightBytes(v);
      BigEndianRoundTrip(8, v);
      assert CanonicalStatus(Versions(w.h))(rows[i]);
      assert HasPrefix(k, StatusPrefix(s));
    }
  }

  /** The event scan against the history: exactly the canonical events of this player and kind. */
  lemma EventScanIsExact(w: World, rows: seq<Row>, player: Id32, e: PlayerEvent, version: u64, game: Id32)
    requires Exact(w) && Lists(rows, w.db)
    ensures Ascending(Stream(rows, EventPrefix(player, e), CanonicalEvent(Versions(w.h))))
    ensures EventKey(player, e, version, game)
              in Stream(rows, EventPrefix(player, e), CanonicalEvent(Versions(w.h))) <==>
            Emitted(w.h, player, e, version, game)
  {
    var keep := CanonicalEvent(Versions(w.h));
    var k := EventKey(player, e, version, game);
    StreamAscending(rows, EventPrefix(player, e), keep);
    StreamMembers(rows, EventPrefix(player, e), keep, k);
    EventKeyParses(player, e, version, game);
    if k in w.db {
      var i :| 0 <= i < |rows| && rows[i].0 == k;
      EmittedIsOnHistory(w.h, player, e, version, game);
      assert keep(rows[i]);
      assert HasPrefix(k, EventPrefix(player, e));
    }
  }

  lemma EventKeyParses(player: Id32, e: PlayerEvent, version: u64, game: Id32)
    ensures IsEventKey(EventKey(player, e, version, game))
    ensures EventCursor(EventKey(player, e, version, game)) == Cursor(version, game)
  {
    var k := EventKey(player, e, version, game);
    assert k[..34] == EventPrefix(player, e);
    assert k[34..42] == BigEndian(8, version) && k[42..74] == game;
    U64FitsEightBytes(version);
    BigEndianRoundTrip(8, version);
  }

  /** Cursor order is version first, then game id: big-endian versions order bytes as numbers. */
  lemma EventKeysOrderByVersion(player: Id32, e: PlayerEvent, a: Cursor, b: Cursor)
    ensures Less(EventKey(player, e, a.version, a.game), EventKey(player, e, b.version, b.game)) <==>
            a.version < b.version || (a.version == b.version && Less(a.game, b.game))
  {
    var va, vb := BigEndian(8, a.version), BigEndian(8, b.version);
    CancelPrefix(EventPrefix(player, e), va + a.game, vb + b.game);
    U64FitsEightBytes(a.version);
    U64FitsEightBytes(b.version);
    if a.version < b.version {
      BigEndianOrders(8, a.version, b.version);
      PrefixDecides(va, vb, a.game, b.game);
    } else if b.version < a.version {
      BigEndianOrders(8, b.version, a.version);
      PrefixDecides(vb, va, b.game, a.game);
      Trichotomy(va + a.game, vb + b.game);
    } else {
      CancelPrefix(va, a.game, b.game);
    }
  }

  ghost predicate WellKeyedDb(db: Db) {
    forall k :: k in db ==>
      && (HasPrefix(k, [1]) ==> IsEventKey(k))
      && (HasPrefix(k, [2]) ==> IsStatusKey(k) && |db[k]| == 8)
  }

  lemma EventKeysParse(id: Id32, before: GameState, after: GameState, version: u64, k: Bytes)
    requires k in EventKeys(id, before, after, version)
    ensures IsEventKey(k) && !HasPrefix(k, [2])
  {
    var ev :| ev in ForwardEvents(before, after) && k == EventKey(ev.0, ev.1, version, id);
    EventKeyParses(ev.0, ev.1, version, id);
    assert k[..1][0] == 1;
  }

  lemma StatusKeyParses(s: GameStatus, id: Id32)
    ensures IsStatusKey(StatusKey(s, id)) && !HasPrefix(StatusKey(s, id), [1])
  {
    assert StatusKey(s, id)[..1][0] == 2;
  }

  lemma KeysParse(d: Diff)
    ensures forall s: GameStatus :: IsStatusKey(StatusKey(s, d.id)) && !HasPrefix(StatusKey(s, d.id), [1])
    ensures forall k :: k in EventKeys(d.id, d.before, d.after, d.version) ==> IsEventKey(k) && !HasPrefix(k, [2])
  {
    forall s: GameStatus ensures IsStatusKey(StatusKey(s, d.id)) && !HasPrefix(StatusKey(s, d.id), [1]) {
      StatusKeyParses(s, d.id);
    }
    forall k | k in EventKeys(d.id, d.before, d.after, d.version) ensures IsEventKey(k) && !HasPrefix(k, [2]) {
      EventKeysParse(d.id, d.before, d.after, d.version, k);
    }
  }

  lemma PutStatusWellKeyed(db: Db, id: Id32, g: GameState, version: u64)
    requires WellKeyedDb(db)
    ensures WellKeyedDb(PutStatus(db, id, g, version))
  {
    if g.Some? {
      StatusKeyParses(StatusOf(g.value.state), id);
    }
  }

  lemma IndexWellKeyed(db: Db, d: Diff)
    requires WellKeyedDb(db)
    ensures WellKeyedDb(IndexDiff(db, d.id, d.before, d.after, d.version))
  {
    KeysParse(d);
    var logged := db + (map k | k in EventKeys(d.id, d.before, d.after, d.version) :: []);
    assert WellKeyedDb(logged);
    if Status(d.before) != Status(d.after) {
      var cleared := if d.before.Some? then logged - {StatusKey(StatusOf(d.before.value.state), d.id)} else logged;
      PutStatusWellKeyed(cleared, d.id, d.after, d.version);
    }
  }

  lemma StepWellKeyed(w: World, op: Op)
    requires WellKeyedDb(w.db) && Enabled(w, op)
    ensures WellKeyedDb(Step(w, op).db)
  {
    match op
    case Advance(d) => IndexWellKeyed(w.db, d);
    case Rollback =>
      var d := w.h[|w.h| - 1];
      var rest := w.h[..|w.h| - 1];
      PutStatusWellKeyed(w.db - EventKeys(d.id, StateOf(rest, d.id), d.after, d.version) - StatusKeys(d.id),
                         d.id, StateOf(rest, d.id), VersionOf(rest, d.id));
  }

  /** The scans never meet a malformed key: the indexes write none. */
  lemma {:induction false} RunWellKeyed(w: World, ops: seq<Op>)
    requires WellKeyedDb(w.db) && Run(w, ops).Some?
    ensures WellKeyedDb(Run(w, ops).value.db)
    ensures forall rows: seq<Row> :: Lists(rows, Run(w, ops).value.db) ==> WellKeyed(rows)
    decreases |ops|
  {
    if ops != [] {
      StepWellKeyed(w, ops[0]);
      RunWellKeyed(Step(w, ops[0]), ops[1..]);
    }
  }
}
