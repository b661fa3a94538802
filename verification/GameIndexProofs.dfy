/** The game indexes agree with the surviving history of the games, after any stack-like sequence of
    applied and rolled-back versions. */
module GameIndexProofs {
  import opened Prelude
  import opened Lex
  import opened GameIndex

  /** One version's change to one game. */
  datatype Diff = Diff(id: Id32, before: GameState, after: GameState, version: u64)

  /** The surviving changes, oldest first. */
  type History = seq<Diff>

  /** The game's state after the history. */
  function StateOf(h: History, id: Id32): GameState {
    if h == [] then None
    else
      var last := h[|h| - 1];
      if last.id == id then last.after else StateOf(h[..|h| - 1], id)
  }

  /** The version that wrote that state, or 0 before the game's first change. */
  function VersionOf(h: History, id: Id32): u64 {
    if h == [] then 0
    else
      var last := h[|h| - 1];
      if last.id == id then last.version else VersionOf(h[..|h| - 1], id)
  }

  /** The version is one of the game's surviving changes. */
  predicate OnHistory(h: History, id: Id32, version: u64) {
    exists i :: 0 <= i < |h| && h[i].id == id && h[i].version == version
  }

  /** A change may extend the history: it starts from the current state, and its version has not yet
      changed this game. */
  predicate Extends(h: History, d: Diff) {
    d.before == StateOf(h, d.id) && !OnHistory(h, d.id, d.version)
  }

  datatype Op = Advance(d: Diff) | Rollback

  /** What the store and the chain look like together. */
  datatype World = World(db: Db, h: History)

  predicate Enabled(w: World, op: Op) {
    match op
    case Advance(d) => Extends(w.h, d)
    case Rollback => w.h != []
  }

  function Step(w: World, op: Op): World
    requires Enabled(w, op)
  {
    match op
    case Advance(d) => World(IndexDiff(w.db, d.id, d.before, d.after, d.version), w.h + [d])
    case Rollback =>
      var d := w.h[|w.h| - 1];
      var rest := w.h[..|w.h| - 1];
      World(RevertDiff(w.db, d.id, d.after, StateOf(rest, d.id), d.version, VersionOf(rest, d.id)), rest)
  }

  /** A run that is enabled all the way; None otherwise. */
  function Run(w: World, ops: seq<Op>): Option<World>
    decreases |ops|
  {
    if ops == [] then Some(w)
    else if !Enabled(w, ops[0]) then None
    else Run(Step(w, ops[0]), ops[1..])
  }

  const EMPTY_WORLD := World(map[], [])

  // ---------- the two index invariants ----------

  /** Some surviving change emitted this event. */
  predicate Emitted(h: History, p: Id32, e: PlayerEvent, version: u64, id: Id32) {
    exists i :: 0 <= i < |h| && h[i].id == id && h[i].version == version
                && (p, e) in ForwardEvents(h[i].before, h[i].after)
  }

  /** The log holds exactly the forward events of the surviving changes. */
  ghost predicate LogExact(w: World) {
    forall p: Id32, e: PlayerEvent, version: u64, id: Id32 ::
      EventKey(p, e, version, id) in w.db <==> Emitted(w.h, p, e, version, id)
  }

  /** Each game has its current status key and no other; the stored version is one of the game's
      surviving changes. */
  ghost predicate StatusExact(w: World, id: Id32) {
    && (forall s :: StatusKey(s, id) in w.db <==> Status(StateOf(w.h, id)) == Some(s))
    && (forall s :: StatusKey(s, id) in w.db ==>
          exists v: u64 :: w.db[StatusKey(s, id)] == BigEndian(8, v) && OnHistory(w.h, id, v))
  }

  ghost predicate Chained(h: History) {
    forall i :: 0 <= i < |h| ==> Extends(h[..i], h[i])
  }

  ghost predicate Exact(w: World) {
    LogExact(w) && (forall id :: StatusExact(w, id)) && Chained(w.h)
  }

  // ---------- history ----------

  lemma HistoryGrows(h: History, d: Diff, id: Id32, v: u64)
    ensures OnHistory(h + [d], id, v) <==> OnHistory(h, id, v) || (d.id == id && d.version == v)
    ensures StateOf(h + [d], id) == if d.id == id then d.after else StateOf(h, id)
  {
    assert (h + [d])[..|h|] == h;
    var h' := h + [d];
    if OnHistory(h, id, v) {
      var i :| 0 <= i < |h| && h[i].id == id && h[i].version == v;
      assert h'[i].id == id;
    }
    assert h'[|h|] == d;
  }

  lemma {:induction false} CurrentVersionIsOnHistory(h: History, id: Id32)
    requires StateOf(h, id).Some?
    ensures OnHistory(h, id, VersionOf(h, id))
  {
    var rest, last := h[..|h| - 1], h[|h| - 1];
    assert h == rest + [last];
    if last.id != id {
      CurrentVersionIsOnHistory(rest, id);
    }
    HistoryGrows(rest, last, id, VersionOf(h, id));
  }

  lemma ChainedAppend(h: History, d: Diff)
    requires Chained(h) && Extends(h, d)
    ensures Chained(h + [d])
  {
    var h' := h + [d];
    forall i | 0 <= i < |h'| ensures Extends(h'[..i], h'[i]) {
      assert h'[..i] == if i < |h| then h[..i] else h;
    }
  }

  lemma ChainedPrefix(h: History, d: Diff)
    requires Chained(h + [d])
    ensures Chained(h) && Extends(h, d)
  {
    var h' := h + [d];
    forall i | 0 <= i < |h| ensures Extends(h[..i], h[i]) {
      assert h'[..i] == h[..i] && Extends(h'[..i], h'[i]);
    }
    assert h'[..|h|] == h && Extends(h'[..|h|], h'[|h|]);
  }

  lemma EmittedGrows(h: History, d: Diff, p: Id32, e: PlayerEvent, v: u64, id: Id32)
    ensures Emitted(h + [d], p, e, v, id) <==>
            Emitted(h, p, e, v, id) || (d.id == id && d.version == v && (p, e) in ForwardEvents(d.before, d.after))
  {
    var h' := h + [d];
    if Emitted(h, p, e, v, id) {
      var i :| 0 <= i < |h| && h[i].id == id && h[i].version == v && (p, e) in ForwardEvents(h[i].before, h[i].after);
      assert h'[i] == h[i];
    }
    assert h'[|h|] == d;
  }

  lemma EmittedIsOnHistory(h: History, p: Id32, e: PlayerEvent, v: u64, id: Id32)
    requires Emitted(h, p, e, v, id)
    ensures OnHistory(h, id, v)
  {
  }

  // ---------- what a diff does to the keys ----------

  lemma EventKeyOfDiff(id: Id32, before: GameState, after: GameState, version: u64,
                       p: Id32, e: PlayerEvent, v: u64, g: Id32)
    ensures EventKey(p, e, v, g) in EventKeys(id, before, after, version) <==>
            g == id && v == version && (p, e) in ForwardEvents(before, after)
  {
    var k := EventKey(p, e, v, g);
    if k in EventKeys(id, before, after, version) {
      var ev :| ev in ForwardEvents(before, after) && k == EventKey(ev.0, ev.1, version, id);
      EventKeyInjective(p, e, v, g, ev.0, ev.1, version, id);
    }
    if g == id && v == version && (p, e) in ForwardEvents(before, after) {
      var ev := (p, e);
      assert ev in ForwardEvents(before, after) && k == EventKey(ev.0, ev.1, version, id);
    }
  }

  lemma StatusKeyIsNoEvent(id: Id32, before: GameState, after: GameState, version: u64, s: GameStatus, g: Id32)
    ensures StatusKey(s, g) !in EventKeys(id, before, after, version)
  {
    forall ev | ev in ForwardEvents(before, after) ensures EventKey(ev.0, ev.1, version, id) != StatusKey(s, g) {
      KeyspacesDisjoint(ev.0, ev.1, version, id, s, g);
    }
  }

  lemma EventKeyIsNoStatus(p: Id32, e: PlayerEvent, v: u64, g: Id32, id: Id32)
    ensures forall s :: EventKey(p, e, v, g) != StatusKey(s, id)
    ensures EventKey(p, e, v, g) !in StatusKeys(id)
  {
    forall s ensures EventKey(p, e, v, g) != StatusKey(s, id) {
      KeyspacesDisjoint(p, e, v, g, s, id);
    }
  }

  /** The log side of both directions. */
  lemma DiffLog(db: Db, id: Id32, before: GameState, after: GameState, version: u64, w: u64,
                p: Id32, e: PlayerEvent, v: u64, g: Id32)
    ensures var k := EventKey(p, e, v, g);
            var emits := g == id && v == version && (p, e) in ForwardEvents(before, after);
            && (k in IndexDiff(db, id, before, after, version) <==> k in db || emits)
            && (k in RevertDiff(db, id, after, before, version, w) <==> k in db && !emits)
  {
    EventKeyOfDiff(id, before, after, version, p, e, v, g);
    EventKeyIsNoStatus(p, e, v, g, id);
  }

  /** The status side: other games keep theirs, and this game's moves to its new bucket. */
  lemma DiffStatus(db: Db, id: Id32, before: GameState, after: GameState, version: u64, s: GameStatus, g: Id32)
    ensures var k := StatusKey(s, g);
            var db' := IndexDiff(db, id, before, after, version);
            if g != id || Status(before) == Status(after) then
              (k in db' <==> k in db) && (k in db ==> db'[k] == db[k])
            else
              && (Status(after) == Some(s) ==> k in db' && db'[k] == BigEndian(8, version))
              && (Status(after) != Some(s) ==> (k in db' <==> k in db && Status(before) != Some(s)))
  {
    StatusKeyIsNoEvent(id, before, after, version, s, g);
    if before.Some? {
      StatusKeyInjective(s, g, StatusOf(before.value.state), id);
    }
    if after.Some? {
      StatusKeyInjective(s, g, StatusOf(after.value.state), id);
    }
  }

  lemma RevertStatus(db: Db, id: Id32, written: GameState, restored: GameState, reverted: u64, version: u64,
                     s: GameStatus, g: Id32)
    ensures var k := StatusKey(s, g);
            var db' := RevertDiff(db, id, written, restored, reverted, version);
            if g != id then (k in db' <==> k in db) && (k in db ==> db'[k] == db[k])
            else
              && (k in db' <==> Status(restored) == Some(s))
              && (k in db' ==> db'[k] == BigEndian(8, version))
  {
    StatusKeyIsNoEvent(id, restored, written, reverted, s, g);
    StatusKeyInjective(s, g, IsOpen, id);
    StatusKeyInjective(s, g, IsPlaying, id);
    StatusKeyInjective(s, g, IsFinished, id);
    if restored.Some? {
      StatusKeyInjective(s, g, StatusOf(restored.value.state), id);
    }
  }

  // ---------- both steps keep the indexes exact ----------

  lemma AdvanceLog(w: World, d: Diff)
    requires LogExact(w) && Extends(w.h, d)
    ensures LogExact(Step(w, Advance(d)))
  {
    forall p: Id32, e: PlayerEvent, v: u64, g: Id32
      ensures EventKey(p, e, v, g) in Step(w, Advance(d)).db <==> Emitted(w.h + [d], p, e, v, g)
    {
      DiffLog(w.db, d.id, d.before, d.after, d.version, 0, p, e, v, g);
      EmittedGrows(w.h, d, p, e, v, g);
    }
  }

  lemma AdvanceStatus(w: World, d: Diff, id: Id32)
    requires StatusExact(w, id) && Extends(w.h, d)
    ensures StatusExact(Step(w, Advance(d)), id)
  {
    var w' := Step(w, Advance(d));
    HistoryGrows(w.h, d, id, d.version);
    forall s ensures StatusKey(s, id) in w'.db <==> Status(StateOf(w'.h, id)) == Some(s) {
      DiffStatus(w.db, d.id, d.before, d.after, d.version, s, id);
    }
    forall s | StatusKey(s, id) in w'.db
      ensures exists v: u64 :: w'.db[StatusKey(s, id)] == BigEndian(8, v) && OnHistory(w'.h, id, v)
    {
      DiffStatus(w.db, d.id, d.before, d.after, d.version, s, id);
      if d.id != id || Status(d.before) == Status(d.after) {
        var v: u64 :| w.db[StatusKey(s, id)] == BigEndian(8, v) && OnHistory(w.h, id, v);
        HistoryGrows(w.h, d, id, v);
        assert w'.db[StatusKey(s, id)] == BigEndian(8, v) && OnHistory(w'.h, id, v);
      } else {
        assert w'.db[StatusKey(s, id)] == BigEndian(8, d.version) && OnHistory(w'.h, id, d.version);
      }
    }
  }

  /** Rolling back removes precisely the events its diff inserted. */
  lemma RollbackLog(w: World, rest: History, d: Diff)
    requires LogExact(w) && w.h == rest + [d] && Extends(rest, d)
    ensures LogExact(Step(w, Rollback))
  {
    forall p: Id32, e: PlayerEvent, v: u64, g: Id32
      ensures EventKey(p, e, v, g) in Step(w, Rollback).db <==> Emitted(rest, p, e, v, g)
    {
      DiffLog(w.db, d.id, d.before, d.after, d.version, VersionOf(rest, d.id), p, e, v, g);
      EmittedGrows(rest, d, p, e, v, g);
      if Emitted(rest, p, e, v, g) {
        EmittedIsOnHistory(rest, p, e, v, g);
      }
    }
  }

  lemma RollbackStatus(w: World, rest: History, d: Diff, id: Id32)
    requires StatusExact(w, id) && w.h == rest + [d] && Extends(rest, d)
    ensures StatusExact(Step(w, Rollback), id)
  {
    var w' := Step(w, Rollback);
    var version := VersionOf(rest, d.id);
    HistoryGrows(rest, d, id, d.version);
    forall s ensures StatusKey(s, id) in w'.db <==> Status(StateOf(rest, id)) == Some(s) {
      RevertStatus(w.db, d.id, d.after, StateOf(rest, d.id), d.version, version, s, id);
    }
    forall s | StatusKey(s, id) in w'.db
      ensures exists v: u64 :: w'.db[StatusKey(s, id)] == BigEndian(8, v) && OnHistory(rest, id, v)
    {
      RevertStatus(w.db, d.id, d.after, StateOf(rest, d.id), d.version, version, s, id);
      if d.id != id {
        var v: u64 :| w.db[StatusKey(s, id)] == BigEndian(8, v) && OnHistory(w.h, id, v);
        HistoryGrows(rest, d, id, v);
        assert w'.db[StatusKey(s, id)] == BigEndian(8, v) && OnHistory(rest, id, v);
      } else {
        CurrentVersionIsOnHistory(rest, id);
        assert w'.db[StatusKey(s, id)] == BigEndian(8, version) && OnHistory(rest, id, version);
      }
    }
  }

  lemma StepExact(w: World, op: Op)
    requires Exact(w) && Enabled(w, op)
    ensures Exact(Step(w, op))
  {
    match op
    case Advance(d) =>
      AdvanceLog(w, d);
      ChainedAppend(w.h, d);
      forall id ensures StatusExact(Step(w, op), id) {
        AdvanceStatus(w, d, id);
      }
    case Rollback =>
      var rest, d := w.h[..|w.h| - 1], w.h[|w.h| - 1];
      assert w.h == rest + [d];
      ChainedPrefix(rest, d);
      RollbackLog(w, rest, d);
      forall id ensures StatusExact(Step(w, op), id) {
        RollbackStatus(w, rest, d, id);
      }
  }

  lemma {:induction false} RunExactFrom(w: World, ops: seq<Op>)
    requires Exact(w) && Run(w, ops).Some?
    ensures Exact(Run(w, ops).value)
    decreases |ops|
  {
    if ops != [] {
      StepExact(w, ops[0]);
      RunExactFrom(Step(w, ops[0]), ops[1..]);
    }
  }

  /** After any stack-like run from the empty index, the log equals the history and every game has
      exactly its current status key. */
  lemma IndexesEqualHistory(ops: seq<Op>)
    requires Run(EMPTY_WORLD, ops).Some?
    ensures Exact(Run(EMPTY_WORLD, ops).value)
  {
    RunExactFrom(EMPTY_WORLD, ops);
  }

  // ---------- events of a whole life ----------

  /** How a stored game may move on: its creator is fixed, its joiner once there stays, and a finished
      game stays as it is. */
  predicate Follows<P(==)>(before: Option<Listing<P>>, after: Option<Listing<P>>) {
    before.None? ||
    (after.Some? && after.value.creator == before.value.creator
     && (before.value.joiner.Some? ==> after.value.joiner == before.value.joiner)
     && (Terminal(before.value.state) ==> after == before))
  }

  /** Events add up along a life: skipping a version emits exactly what the steps would have. */
  lemma EventsCompose<P>(a: Option<Listing<P>>, b: Option<Listing<P>>, c: Option<Listing<P>>)
    requires Follows(a, b) && Follows(b, c)
    ensures multiset(ForwardEvents(a, c)) == multiset(ForwardEvents(a, b)) + multiset(ForwardEvents(b, c))
  {
  }

  predicate Lives<P(==)>(states: seq<Option<Listing<P>>>) {
    forall i :: 0 < i < |states| ==> Follows(states[i - 1], states[i])
  }

  ghost function AllEvents<P>(states: seq<Option<Listing<P>>>): multiset<(P, PlayerEvent)> {
    if |states| <= 1 then multiset{}
    else AllEvents(states[..|states| - 1])
         + multiset(ForwardEvents(states[|states| - 2], states[|states| - 1]))
  }

  lemma {:induction false} LifeFollows<P>(states: seq<Option<Listing<P>>>)
    requires Lives(states) && states != [] && states[0].None?
    ensures AllEvents(states) == multiset(ForwardEvents(None, states[|states| - 1]))
  {
    if |states| > 1 {
      var init := states[..|states| - 1];
      assert Lives(init);
      LifeFollows(init);
      EventsCompose(None, init[|init| - 1], states[|states| - 1]);
    }
  }

  /** The log of a whole life, for one player: Created iff it is the creator, Joined iff the joiner, and, once the
      match has ended, the outcome it had at its own seat; each at most once. */
  ghost predicate LoggedOnce<P>(events: multiset<(P, PlayerEvent)>, g: Listing<P>, p: P) {
    && events[(p, Created)] == (if p == g.creator then 1 else 0)
    && events[(p, Joined)] == (if g.joiner == Some(p) then 1 else 0)
    && events[(p, Won)] == (if (g.state.First? && p == g.creator) || (g.state.Second? && g.joiner == Some(p))
                            then 1 else 0)
    && events[(p, Lost)] == (if (g.state.Second? && p == g.creator) || (g.state.First? && g.joiner == Some(p))
                             then 1 else 0)
    && events[(p, Drew)] == (if g.state.Draw? && (p == g.creator || g.joiner == Some(p)) then 1 else 0)
  }

  /** Over a whole life a game logs each of its events once, and to the right player. */
  lemma EventsOnceEach<P>(states: seq<Option<Listing<P>>>, p: P)
    requires Lives(states) && states != [] && states[0].None? && states[|states| - 1].Some?
    requires states[|states| - 1].value.joiner != Some(states[|states| - 1].value.creator)
    ensures LoggedOnce(AllEvents(states), states[|states| - 1].value, p)
  {
    LifeFollows(states);
    OneLife(states[|states| - 1].value, p);
  }

  /** The events of a game seen for the first time in state `g`. */
  lemma OneLife<P>(g: Listing<P>, p: P)
    requires g.joiner != Some(g.creator)
    ensures LoggedOnce(multiset(ForwardEvents(None, Some(g))), g, p)
  {
    if g.joiner.None? {
      WaitingLife(g, p);
    } else {
      JoinedLife(g, p);
    }
  }

  lemma WaitingLife<P>(g: Listing<P>, p: P)
    requires g.joiner.None?
    ensures LoggedOnce(multiset(ForwardEvents(None, Some(g))), g, p)
  {
    var created, out := (g.creator, Created), (g.creator, OutcomeEvents(g.state).0);
    var events := ForwardEvents(None, Some(g));
    if Terminal(g.state) {
      assert events == [created, out];
      assert multiset(events) == multiset{created, out};
    } else {
      assert events == [created];
    }
  }

  lemma JoinedLife<P>(g: Listing<P>, p: P)
    requires g.joiner.Some? && g.joiner.value != g.creator
    ensures LoggedOnce(multiset(ForwardEvents(None, Some(g))), g, p)
  {
    var start := [(g.creator, Created), (g.joiner.value, Joined)];
    var out := OutcomeEvents(g.state);
    var end := if Terminal(g.state) then [(g.creator, out.0), (g.joiner.value, out.1)] else [];
    assert ForwardEvents(None, Some(g)) == start + end;
    StartEvents(g.creator, g.joiner.value, p);
    if Terminal(g.state) {
      EndEvents(g.creator, g.joiner.value, out.0, out.1, p);
    }
  }

  lemma StartEvents<P>(c: P, j: P, p: P)
    ensures var events := multiset([(c, Created), (j, Joined)]);
            && events[(p, Created)] == (if p == c then 1 else 0)
            && events[(p, Joined)] == (if p == j then 1 else 0)
            && events[(p, Won)] == events[(p, Lost)] == events[(p, Drew)] == 0
  {
    assert multiset([(c, Created), (j, Joined)]) == multiset{(c, Created), (j, Joined)};
  }

  lemma EndEvents<P>(c: P, j: P, e0: PlayerEvent, e1: PlayerEvent, p: P)
    requires c != j && e0 in {Won, Lost, Drew} && e1 in {Won, Lost, Drew}
    ensures var events := multiset([(c, e0), (j, e1)]);
            && events[(p, Created)] == events[(p, Joined)] == 0
            && (forall e :: e in {Won, Lost, Drew} ==>
                  events[(p, e)] == if p == c then (if e == e0 then 1 else 0)
                                    else if p == j && e == e1 then 1 else 0)
  {
    assert multiset([(c, e0), (j, e1)]) == multiset{(c, e0), (j, e1)};
  }
}
