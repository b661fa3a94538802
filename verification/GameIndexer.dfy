/** The game indexer in place: each diff appends puts and deletes to a batch of raw keys. */
module GameIndexer {
  import opened Prelude
  import G = GameIndex
  import opened Lex

  datatype KeyOp = Put(key: Bytes, value: Bytes) | Delete(key: Bytes)

  function Apply(db: G.Db, op: KeyOp): G.Db {
    match op
    case Put(key, value) => db[key := value]
    case Delete(key) => db - {key}
  }

  function Commit(db: G.Db, ops: seq<KeyOp>): G.Db {
    if ops == [] then db else Apply(Commit(db, ops[..|ops| - 1]), ops[|ops| - 1])
  }

  /** A batch of raw index keys, in the order it was written. */
  class KeyBatch {
    var ops: seq<KeyOp>
    ghost const base: G.Db

    ghost function View(): G.Db
      reads this
    {
      Commit(base, ops)
    }

    constructor (ghost base: G.Db)
      ensures View() == base && this.base == base
    {
      this.base := base;
      ops := [];
    }

    method Push(op: KeyOp)
      modifies this
      ensures View() == Apply(old(View()), op)
    {
      assert (ops + [op])[..|ops|] == ops;
      ops := ops + [op];
    }
  }

  /** The event keys of the first `n` events. */
  function FirstKeys(events: seq<(G.Id32, G.PlayerEvent)>, n: nat, id: G.Id32, version: u64): set<Bytes>
    requires n <= |events|
  {
    set i | 0 <= i < n :: G.EventKey(events[i].0, events[i].1, version, id)
  }

  lemma AllKeys(id: G.Id32, before: G.GameState, after: G.GameState, version: u64)
    ensures var events := G.ForwardEvents(before, after);
            FirstKeys(events, |events|, id, version) == G.EventKeys(id, before, after, version)
  {
    var events := G.ForwardEvents(before, after);
    forall k | k in G.EventKeys(id, before, after, version) ensures k in FirstKeys(events, |events|, id, version) {
      var ev :| ev in events && k == G.EventKey(ev.0, ev.1, version, id);
      var i :| 0 <= i < |events| && events[i] == ev;
      assert k == G.EventKey(events[i].0, events[i].1, version, id);
    }
    forall k | k in FirstKeys(events, |events|, id, version) ensures k in G.EventKeys(id, before, after, version) {
      var i :| 0 <= i < |events| && k == G.EventKey(events[i].0, events[i].1, version, id);
      assert events[i] in events;
    }
  }

  lemma NextKey(events: seq<(G.Id32, G.PlayerEvent)>, n: nat, id: G.Id32, version: u64)
    requires n < |events|
    ensures FirstKeys(events, n + 1, id, version)
         == FirstKeys(events, n, id, version) + {G.EventKey(events[n].0, events[n].1, version, id)}
  {
    var k := G.EventKey(events[n].0, events[n].1, version, id);
    assert k in FirstKeys(events, n + 1, id, version);
  }

  function Blank(keys: set<Bytes>): G.Db {
    map k | k in keys :: []
  }

  lemma BlankGrows(db: G.Db, keys: set<Bytes>, k: Bytes)
    ensures db + Blank(keys + {k}) == (db + Blank(keys))[k := []]
  {
  }

  class TicTacToeIndexer {
    constructor () {}

    /** Logs the transition's events. */
    method LogEvents(id: G.Id32, before: G.GameState, after: G.GameState, version: u64, wb: KeyBatch)
      modifies wb
      ensures wb.View() == old(wb.View()) + Blank(G.EventKeys(id, before, after, version))
    {
      var events := G.ForwardEvents(before, after);
      ghost var start := wb.View();
      assert start + Blank({}) == start;
      for i := 0 to |events|
        invariant wb.View() == start + Blank(FirstKeys(events, i, id, version))
      {
        NextKey(events, i, id, version);
        BlankGrows(start, FirstKeys(events, i, id, version), G.EventKey(events[i].0, events[i].1, version, id));
        wb.Push(Put(G.EventKey(events[i].0, events[i].1, version, id), []));
      }
      AllKeys(id, before, after, version);
    }

    /** Deletes the events a reverted transition logged. */
    method UnlogEvents(id: G.Id32, before: G.GameState, after: G.GameState, version: u64, wb: KeyBatch)
      modifies wb
      ensures wb.View() == old(wb.View()) - G.EventKeys(id, before, after, version)
    {
      var events := G.ForwardEvents(before, after);
      ghost var start := wb.View();
      for i := 0 to |events|
        invariant wb.View() == start - FirstKeys(events, i, id, version)
      {
        NextKey(events, i, id, version);
        wb.Push(Delete(G.EventKey(events[i].0, events[i].1, version, id)));
      }
      AllKeys(id, before, after, version);
    }

    method IndexDiff(id: G.Id32, before: G.GameState, after: G.GameState, version: u64, wb: KeyBatch)
      modifies wb
      ensures wb.View() == G.IndexDiff(old(wb.View()), id, before, after, version)
    {
      LogEvents(id, before, after, version, wb);
      var oldStatus, newStatus := G.Status(before), G.Status(after);
      if newStatus != oldStatus {
        if oldStatus.Some? {
          wb.Push(Delete(G.StatusKey(oldStatus.value, id)));
        }
        if newStatus.Some? {
          wb.Push(Put(G.StatusKey(newStatus.value, id), BigEndian(8, version)));
        }
      }
    }

    method RevertDiff(id: G.Id32, written: G.GameState, restored: G.GameState,
                      revertedVersion: u64, restoredVersion: u64, wb: KeyBatch)
      modifies wb
      ensures wb.View() == G.RevertDiff(old(wb.View()), id, written, restored, revertedVersion, restoredVersion)
    {
      UnlogEvents(id, restored, written, revertedVersion, wb);
      ghost var unlogged := wb.View();
      wb.Push(Delete(G.StatusKey(G.IsOpen, id)));
      wb.Push(Delete(G.StatusKey(G.IsPlaying, id)));
      wb.Push(Delete(G.StatusKey(G.IsFinished, id)));
      assert wb.View() == unlogged - G.StatusKeys(id);
      if restored.Some? {
        wb.Push(Put(G.StatusKey(G.StatusOf(restored.value.state), id), BigEndian(8, restoredVersion)));
      }
    }
  }
}
