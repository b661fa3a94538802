/** The ledger as the game indexes see it: along every transaction a stored game moves on the way the
    event log relies on. */
module LedgerListing {
  import opened Prelude
  import opened Resources
  import opened Actions
  import opened Ledger
  import opened LedgerInvariant
  import opened LedgerSigners
  import opened LedgerConservation
  import GI = GameIndex
  import GP = GameIndexProofs

  /** What the indexes read of a stored resource; other kinds do not list. */
  function ListingAt(s: Store, id: Id): Option<GI.Listing<Id>> {
    var g := FindGame(s, id);
    if g.None? then None else Some(GI.Listing(g.value.creator, g.value.joiner, g.value.play.core.state))
  }

  lemma ActionFollows(tx: Tx, k: nat, s: TxState, a: Action, id: Id)
    requires Reachable(s.store) && DistinctIds(tx.access) && Admitted(a, |tx.access|)
    requires ApplyAction(tx, k, s, a).Some?
    ensures GP.Follows(ListingAt(s.store, id), ListingAt(ApplyAction(tx, k, s, a).value.store, id))
  {
    if FindGame(s.store, id).Some? {
      EscrowLeavesOnce(tx, k, s, a, id);
      if a.Turn? || a.Timeout? {
        PlaysOn(tx, k, s, a);
        var g :| PlayedOn(s.store[IdAt(tx, a.gameIdx)].game, g)
                 && ApplyAction(tx, k, s, a) == Conclude(tx, s, IdAt(tx, a.gameIdx), Ok(g));
        ConcludeTouches(tx, s, IdAt(tx, a.gameIdx), g, id);
      } else if a.JoinGame? {
        JoinKeepsCreator(tx, k, s, a, id);
      } else {
        OthersKeepGames(tx, k, s, a, id);
      }
    }
  }

  lemma JoinKeepsCreator(tx: Tx, k: nat, s: TxState, a: Action, id: Id)
    requires Sound(s.store) && a.JoinGame? && Admitted(a, |tx.access|) && ApplyAction(tx, k, s, a).Some?
    requires FindGame(s.store, id).Some?
    ensures GP.Follows(ListingAt(s.store, id), ListingAt(ApplyAction(tx, k, s, a).value.store, id))
  {
    assert Indexes(a)[0] < |tx.access| && Indexes(a)[1] < |tx.access|;
    assert Placed(s.store, id);
  }

  lemma FollowsTransitive<P>(a: Option<GI.Listing<P>>, b: Option<GI.Listing<P>>, c: Option<GI.Listing<P>>)
    requires GP.Follows(a, b) && GP.Follows(b, c)
    ensures GP.Follows(a, c)
  {
  }

  lemma {:induction false} AllFollow(tx: Tx, k: nat, s: TxState, id: Id)
    requires Reachable(s.store) && DistinctIds(tx.access) && k <= |tx.actions|
    requires ApplyAll(tx, k, s).Some?
    ensures GP.Follows(ListingAt(s.store, id), ListingAt(ApplyAll(tx, k, s).value.store, id))
    decreases |tx.actions| - k
  {
    if k < |tx.actions| {
      var s' := ApplyAction(tx, k, s, tx.actions[k]).value;
      ActionFollows(tx, k, s, tx.actions[k], id);
      ActionKeeps(tx, k, s, tx.actions[k]);
      AllFollow(tx, k + 1, s', id);
      FollowsTransitive(ListingAt(s.store, id), ListingAt(s'.store, id),
                        ListingAt(ApplyAll(tx, k + 1, s').value.store, id));
    }
  }

  /** Between any two points of a run, every game follows on: so its events compose whatever batches
      the versions were cut into. */
  lemma {:induction false} GamesFollow(before: seq<Tx>, after: seq<Tx>, id: Id)
    ensures GP.Follows(ListingAt(TransactAll(GENESIS, before).store, id),
                       ListingAt(TransactAll(GENESIS, before + after).store, id))
    decreases |after|
  {
    if after == [] {
      assert before + after == before;
    } else {
      var init := after[..|after| - 1];
      var tx := after[|after| - 1];
      assert (before + after)[..|before + after| - 1] == before + init;
      GamesFollow(before, init, id);
      RunsAreReachable(before + init);
      var l := TransactAll(GENESIS, before + init);
      if DistinctIds(tx.access) && Execute(tx, Begin(l)).Some? {
        ExecuteApplies(tx, Begin(l));
        AllFollow(tx, 0, Begin(l), id);
        FollowsTransitive(ListingAt(TransactAll(GENESIS, before).store, id), ListingAt(l.store, id),
                          ListingAt(Transact(l, tx).store, id));
      }
    }
  }

  /** The transactions of a run that was cut into versions. */
  function Flat(versions: seq<seq<Tx>>): seq<Tx> {
    if versions == [] then [] else Flat(versions[..|versions| - 1]) + versions[|versions| - 1]
  }

  /** What the indexes see of one game, version by version, from the empty ledger. */
  function Seen(versions: seq<seq<Tx>>, id: Id): seq<Option<GI.Listing<Id>>> {
    if versions == [] then [ListingAt(GENESIS.store, id)]
    else Seen(versions[..|versions| - 1], id) + [ListingAt(TransactAll(GENESIS, Flat(versions)).store, id)]
  }

  lemma {:induction false} SeenLives(versions: seq<seq<Tx>>, id: Id)
    ensures var states := Seen(versions, id);
      && |states| == |versions| + 1 && GP.Lives(states) && states[0] == None
      && states[|versions|] == ListingAt(TransactAll(GENESIS, Flat(versions)).store, id)
  {
    if versions != [] {
      var init := versions[..|versions| - 1];
      SeenLives(init, id);
      GamesFollow(Flat(init), versions[|versions| - 1], id);
    }
  }

  lemma PlayersDiffer(txs: seq<Tx>, id: Id)
    ensures var g := ListingAt(TransactAll(GENESIS, txs).store, id);
      g.Some? ==> g.value.joiner != Some(g.value.creator) && (g.value.joiner.Some? || g.value.state.Open?)
  {
    RunsAreReachable(txs);
    var s := TransactAll(GENESIS, txs).store;
    if FindGame(s, id).Some? {
      assert Placed(s, id);
    }
  }

  /** Over any run of the ledger, however it is cut into versions, the event log of a stored game has each of its
      events once: Won for the player the ledger counts as the winner, Lost for the other one, Drew for both; a
      game never stored has none. */
  lemma RunLogsOnceEach(versions: seq<seq<Tx>>, id: Id, p: Id)
    ensures var events := GP.AllEvents(Seen(versions, id));
      match FindGame(TransactAll(GENESIS, Flat(versions)).store, id)
      case None => events == multiset{}
      case Some(g) =>
        && events[(p, GI.Created)] == (if p == g.creator then 1 else 0)
        && events[(p, GI.Joined)] == (if g.joiner == Some(p) then 1 else 0)
        && events[(p, GI.Won)] == (if Won(g, p) then 1 else 0)
        && events[(p, GI.Lost)] ==
           (if Sits(g, p) && !Won(g, p) && (g.play.core.state.First? || g.play.core.state.Second?) then 1 else 0)
        && events[(p, GI.Drew)] == (if Sits(g, p) && g.play.core.state.Draw? then 1 else 0)
  {
    var txs := Flat(versions);
    SeenLives(versions, id);
    PlayersDiffer(txs, id);
    if ListingAt(TransactAll(GENESIS, txs).store, id).Some? {
      GP.EventsOnceEach(Seen(versions, id), p);
      OutcomeBySeat(TransactAll(GENESIS, txs).store, id, GP.AllEvents(Seen(versions, id)), p);
    } else {
      GP.LifeFollows(Seen(versions, id));
    }
  }

  /** The outcomes of a log, in the ledger's terms. */
  lemma OutcomeBySeat(s: Store, id: Id, events: multiset<(Id, GI.PlayerEvent)>, p: Id)
    requires ListingAt(s, id).Some? && GP.LoggedOnce(events, ListingAt(s, id).value, p)
    requires s[id].game.joiner != Some(s[id].game.creator)
    requires s[id].game.joiner.Some? || s[id].game.play.core.state.Open?
    ensures var g := s[id].game;
      && events[(p, GI.Won)] == (if Won(g, p) then 1 else 0)
      && events[(p, GI.Lost)] ==
         (if Sits(g, p) && !Won(g, p) && (g.play.core.state.First? || g.play.core.state.Second?) then 1 else 0)
      && events[(p, GI.Drew)] == (if Sits(g, p) && g.play.core.state.Draw? then 1 else 0)
  {
  }
}
