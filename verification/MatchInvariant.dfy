/** What every reachable match satisfies, and why every match ends. */
module MatchInvariant {
  import opened Prelude
  import opened Rules
  import opened Match

  /** A round in progress: marks alternate, nobody holds a line, there is room, nothing is decided. */
  predicate Live(c: Core) {
    && c.state.Playing?
    && Count(c.board, O) <= Count(c.board, X) <= Count(c.board, O) + 1
    && Winner(c.board) == None
    && !BoardFull(c.board)
    && c.Round() < c.roundsTotal
    && c.Outcome() == None
  }

  /** A decided match: the recorded result is what the counters say, and the board is cleared. */
  predicate Decided(c: Core) {
    && c.Finished()
    && c.board == EMPTY_BOARD
    && c.Round() <= c.roundsTotal
    && c.Outcome() == Some(c.state)
  }

  predicate Sound(c: Core) {
    && c.creatorMark != Empty
    && 1 <= c.roundsTotal
    && match c.state
       case Open => c.board == EMPTY_BOARD && c.Round() == 0
       case Playing => Live(c)
       case _ => Decided(c)
  }

  /** The invariant of every stored match. The queue of the seat to move is empty between turns, so
      an explicit move never overtakes the mover's own pre-commits. */
  predicate Valid(m: Match) {
    && Sound(m.core)
    && |m.q0| <= PENDING_CAP && |m.q1| <= PENDING_CAP
    && (if m.core.state.Playing? then m.Queue(m.core.ToMove()) == [] else m.q0 == m.q1 == [])
  }

  // ---------- one mark, one closed round ----------

  lemma OutcomeBeforeTheEnd(c: Core)
    requires c.Outcome() == None
    ensures c.Round() < c.roundsTotal
  {
  }

  /** Closing a round that was not the last to be needed leaves a sound match. */
  lemma CloseRoundSound(c: Core)
    requires c.state.Playing? && c.creatorMark != Empty
    requires c.Round() <= c.roundsTotal && 1 <= c.roundsTotal
    ensures Sound(CloseRound(c))
    ensures CloseRound(c).Round() == c.Round() && CloseRound(c).roundsTotal == c.roundsTotal
    ensures CloseRound(c).board == EMPTY_BOARD
  {
    EmptyBoardHasNoMark();
  }

  /** A live round with one mark freshly placed: the marks still alternate, and a completed line can
      only be that mark's. */
  predicate JustMarked(c: Core, mark: Cell) {
    && c.state.Playing? && c.creatorMark != Empty
    && Count(c.board, O) <= Count(c.board, X) <= Count(c.board, O) + 1
    && (Winner(c.board) == None || Winner(c.board) == Some(mark))
    && c.Outcome() == None
  }

  lemma MarkedBoard(c: Core, cell: Pos)
    requires Live(c) && c.creatorMark != Empty && c.board[cell] == Empty
    ensures JustMarked(Marked(c, c.ToMove(), cell), MarkForSeat(c.creatorMark, c.Round(), c.ToMove()))
  {
    var mark := MarkForSeat(c.creatorMark, c.Round(), c.ToMove());
    ToMovePlaysTheAwaitedMark(c.creatorMark, c.Round(), c.board);
    PliesSplit(c.board);
    CountUpdate(c.board, cell, Empty, mark, X);
    CountUpdate(c.board, cell, Empty, mark, O);
    PlacedMarkIsTheOnlyWinner(c.board, cell, mark);
  }

  lemma MarkedPlies(c: Core, cell: Pos)
    requires Live(c) && c.creatorMark != Empty && c.board[cell] == Empty
    ensures Plies(Marked(c, c.ToMove(), cell).board) == Plies(c.board) + 1
  {
    var mark := MarkForSeat(c.creatorMark, c.Round(), c.ToMove());
    PliesSplit(c.board);
    PliesSplit(c.board[cell := mark]);
    CountUpdate(c.board, cell, Empty, mark, X);
    CountUpdate(c.board, cell, Empty, mark, O);
  }

  lemma ScoreSound(c: Core, seat: Seat, mark: Cell)
    requires JustMarked(c, mark)
    ensures Sound(Score(c, seat, mark))
  {
    OutcomeBeforeTheEnd(c);
    var scored := Score(c, seat, mark);
    if Winner(c.board) == Some(mark) {
      WonRoundSound(c, seat);
      assert scored == CloseRound(c.WithRoundWonBy(seat));
    } else if BoardFull(c.board) {
      CloseRoundSound(c.(draws := c.draws + 1));
      assert scored == CloseRound(c.(draws := c.draws + 1));
    } else {
      RoundGoesOn(c, mark);
      assert scored == c;
    }
  }

  lemma RoundGoesOn(c: Core, mark: Cell)
    requires JustMarked(c, mark) && c.Round() < c.roundsTotal
    requires Winner(c.board) != Some(mark) && !BoardFull(c.board)
    ensures Sound(c)
  {
  }

  lemma WonRoundSound(c: Core, seat: Seat)
    requires c.state.Playing? && c.creatorMark != Empty && c.Round() < c.roundsTotal
    ensures Sound(CloseRound(c.WithRoundWonBy(seat)))
  {
    CloseRoundSound(c.WithRoundWonBy(seat));
  }

  /** Placing the to-move seat's mark on an open cell keeps the match sound. */
  lemma PlaceSound(c: Core, cell: Pos)
    requires Live(c) && Sound(c) && c.board[cell] == Empty
    ensures Sound(Place(c, c.ToMove(), cell))
  {
    MarkedBoard(c, cell);
    ScoreSound(Marked(c, c.ToMove(), cell), c.ToMove(), MarkForSeat(c.creatorMark, c.Round(), c.ToMove()));
  }

  /** An upper bound on the marks still to come. */
  function Budget(c: Core): int {
    if c.state.Playing? then 9 * (c.roundsTotal - c.Round()) - Plies(c.board) else 0
  }

  /** An upper bound on the rounds still to be closed. */
  function RoundsLeft(c: Core): int {
    if c.state.Playing? then c.roundsTotal - c.Round() else 0
  }

  lemma BudgetBounds(c: Core)
    requires Sound(c)
    ensures 0 <= RoundsLeft(c) <= c.roundsTotal && 0 <= Budget(c) <= 9 * c.roundsTotal
    ensures Live(c) ==> 0 < RoundsLeft(c) && 0 < Budget(c)
  {
    PliesSplit(c.board);
  }

  /** Every mark uses up some of the budget; no mark brings a round back. */
  lemma PlaceSpends(c: Core, cell: Pos)
    requires Live(c) && Sound(c) && c.board[cell] == Empty
    ensures Budget(Place(c, c.ToMove(), cell)) < Budget(c)
    ensures RoundsLeft(Place(c, c.ToMove(), cell)) <= RoundsLeft(c)
  {
    var seat := c.ToMove();
    var mark := MarkForSeat(c.creatorMark, c.Round(), seat);
    var marked := Marked(c, seat, cell);
    MarkedBoard(c, cell);
    MarkedPlies(c, cell);
    if Winner(marked.board) == Some(mark) {
      CloseRoundSpends(c, marked.WithRoundWonBy(seat));
    } else if BoardFull(marked.board) {
      CloseRoundSpends(c, marked.(draws := c.draws + 1));
    }
  }

  /** Closing a round, with one more round completed than in `c`, spends budget and a round. */
  lemma CloseRoundSpends(c: Core, closing: Core)
    requires Live(c) && Sound(c)
    requires closing.state.Playing? && closing.roundsTotal == c.roundsTotal
    requires closing.Round() == c.Round() + 1
    ensures Budget(CloseRound(closing)) < Budget(c)
    ensures RoundsLeft(CloseRound(closing)) < RoundsLeft(c)
  {
    EmptyBoardHasNoMark();
    PliesSplit(c.board);
    BudgetBounds(c);
  }

  /** A forfeit closes one round for good. */
  lemma ForfeitSpends(c: Core)
    requires Live(c) && Sound(c)
    ensures var c' := CloseRound(c.WithRoundWonBy(1 - c.ToMove()));
            Sound(c') && Budget(c') < Budget(c) && RoundsLeft(c') < RoundsLeft(c)
  {
    var won := c.WithRoundWonBy(1 - c.ToMove());
    CloseRoundSound(won);
    CloseRoundSpends(c, won);
  }

  // ---------- the cascade ----------

  /** Sound, with bounded queues that are empty once the match is not playing. */
  predicate Draining(m: Match) {
    && Sound(m.core)
    && |m.q0| <= PENDING_CAP && |m.q1| <= PENDING_CAP
    && (!m.core.state.Playing? ==> m.q0 == m.q1 == [])
  }

  /** One step of the cascade: nothing left for the seat to move, or one entry consumed. */
  lemma DrainStep(m: Match, now: nat)
    requires Draining(m) && m.core.state.Playing?
    ensures var seat := m.core.ToMove();
            var q := m.Queue(seat);
            if q == [] then Drain(m, now) == m
            else
              var popped := m.WithQueue(seat, q[1..]);
              var m' := if m.core.board[q[0]] == Empty then ApplyMove(popped, seat, q[0], now) else popped;
              Draining(m') && m'.Queued() < m.Queued() && Drain(m, now) == Drain(m', now)
  {
    var q := m.Queue(m.core.ToMove());
    if q != [] && m.core.board[q[0]] == Empty {
      PlaceSound(m.core, q[0]);
    }
  }

  /** The cascade ends in a valid match, whatever was queued. */
  lemma {:induction false} DrainValid(m: Match, now: nat)
    requires Draining(m)
    ensures Valid(Drain(m, now))
    decreases m.Queued()
  {
    var seat := m.core.ToMove();
    var q := m.Queue(seat);
    if m.core.state.Playing? {
      DrainStep(m, now);
      if q != [] {
        var popped := m.WithQueue(seat, q[1..]);
        DrainValid(if m.core.board[q[0]] == Empty then ApplyMove(popped, seat, q[0], now) else popped, now);
      }
    }
  }

  /** The marks the cascade places. */
  ghost function DrainMarks(m: Match, now: nat): nat
    decreases m.Queued()
  {
    var seat := m.core.ToMove();
    var q := m.Queue(seat);
    if !m.core.state.Playing? || q == [] then 0
    else
      var popped := m.WithQueue(seat, q[1..]);
      if m.core.board[q[0]] == Empty then 1 + DrainMarks(ApplyMove(popped, seat, q[0], now), now)
      else DrainMarks(popped, now)
  }

  lemma {:induction false} DrainSpends(m: Match, now: nat)
    requires Draining(m)
    ensures DrainMarks(m, now) + Budget(Drain(m, now).core) <= Budget(m.core)
    ensures RoundsLeft(Drain(m, now).core) <= RoundsLeft(m.core)
    decreases m.Queued()
  {
    var seat := m.core.ToMove();
    var q := m.Queue(seat);
    if m.core.state.Playing? && q != [] {
      var popped := m.WithQueue(seat, q[1..]);
      if m.core.board[q[0]] == Empty {
        PlaceSound(m.core, q[0]);
        PlaceSpends(m.core, q[0]);
        DrainSpends(ApplyMove(popped, seat, q[0], now), now);
      } else {
        DrainSpends(popped, now);
      }
    }
  }

  // ---------- turns, forfeits and whole runs ----------

  lemma FreshValid(creatorMark: Cell, roundsTotal: nat, now: nat)
    requires creatorMark != Empty && 1 <= roundsTotal
    ensures Valid(Fresh(creatorMark, roundsTotal))
    ensures Valid(Start(Fresh(creatorMark, roundsTotal), now))
  {
    EmptyBoardHasNoMark();
  }

  lemma CommitDraining(m: Match, seat: Seat, cell: Pos, now: nat)
    requires Valid(m) && m.core.state.Playing? && CommitExplicit(m, seat, cell, now).Ok?
    ensures Draining(CommitExplicit(m, seat, cell, now).value)
  {
    if seat == m.core.ToMove() {
      PlaceSound(m.core, cell);
    }
  }

  lemma PlayTurnValid(m: Match, seat: Seat, cell: Pos, now: nat)
    requires Valid(m) && PlayTurn(m, seat, cell, now).Ok?
    ensures Valid(PlayTurn(m, seat, cell, now).value)
  {
    CommitDraining(m, seat, cell, now);
    DrainValid(CommitExplicit(m, seat, cell, now).value, now);
  }

  lemma ForfeitValid(m: Match, turnTtl: nat, now: nat)
    requires Valid(m) && Forfeit(m, turnTtl, now).Ok?
    ensures Draining(Forfeited(m, now)) && Valid(Forfeit(m, turnTtl, now).value)
  {
    ForfeitSpends(m.core);
    DrainValid(Forfeited(m, now), now);
  }

  /** One accepted input to a playing match. */
  datatype Input =
    | Turn(seat: Seat, cell: Pos, now: nat)
    | Timeout(turnTtl: nat, now: nat)

  function Apply(m: Match, i: Input): Result<Match> {
    match i
    case Turn(seat, cell, now) => PlayTurn(m, seat, cell, now)
    case Timeout(ttl, now) => Forfeit(m, ttl, now)
  }

  /** The match after a run of inputs, or None when one of them is rejected. */
  function Run(m: Match, inputs: seq<Input>): Option<Match>
    decreases |inputs|
  {
    if inputs == [] then Some(m)
    else
      match Apply(m, inputs[0])
      case Err(_) => None
      case Ok(m') => Run(m', inputs[1..])
  }

  /** Marks placed by one accepted input: an explicit mark, if any, and its cascade. */
  ghost function MarksOf(m: Match, i: Input): nat {
    match i
    case Turn(seat, cell, now) =>
      (match CommitExplicit(m, seat, cell, now)
       case Ok(m') => (if seat == m.core.ToMove() then 1 else 0) + DrainMarks(m', now)
       case Err(_) => 0)
    case Timeout(_, now) => DrainMarks(Forfeited(m, now), now)
  }

  ghost function Marks(m: Match, inputs: seq<Input>): nat
    decreases |inputs|
  {
    if inputs == [] then 0
    else
      match Apply(m, inputs[0])
      case Err(_) => 0
      case Ok(m') => MarksOf(m, inputs[0]) + Marks(m', inputs[1..])
  }

  function Forfeits(inputs: seq<Input>): nat {
    if inputs == [] then 0 else (if inputs[0].Timeout? then 1 else 0) + Forfeits(inputs[1..])
  }

  lemma ApplySpends(m: Match, i: Input)
    requires Valid(m) && Apply(m, i).Ok?
    ensures MarksOf(m, i) + Budget(Apply(m, i).value.core) <= Budget(m.core)
    ensures RoundsLeft(Apply(m, i).value.core) + (if i.Timeout? then 1 else 0) <= RoundsLeft(m.core)
  {
    match i
    case Turn(seat, cell, now) =>
      var end := Drain(CommitExplicit(m, seat, cell, now).value, now);
      assert Apply(m, i) == Ok(end);
      TurnSpends(m, seat, cell, now);
    case Timeout(ttl, now) =>
      assert Apply(m, i) == Ok(Drain(Forfeited(m, now), now));
      TimeoutSpends(m, ttl, now);
  }

  lemma ApplyValid(m: Match, i: Input)
    requires Valid(m) && Apply(m, i).Ok?
    ensures Valid(Apply(m, i).value)
  {
    match i
    case Turn(seat, cell, now) => PlayTurnValid(m, seat, cell, now);
    case Timeout(ttl, now) => ForfeitValid(m, ttl, now);
  }

  lemma TimeoutSpends(m: Match, turnTtl: nat, now: nat)
    requires Valid(m) && Forfeit(m, turnTtl, now).Ok?
    ensures var end := Drain(Forfeited(m, now), now);
            && DrainMarks(Forfeited(m, now), now) + Budget(end.core) < Budget(m.core)
            && RoundsLeft(end.core) < RoundsLeft(m.core)
  {
    ForfeitValid(m, turnTtl, now);
    ForfeitSpends(m.core);
    DrainSpends(Forfeited(m, now), now);
  }

  lemma TurnSpends(m: Match, seat: Seat, cell: Pos, now: nat)
    requires Valid(m) && PlayTurn(m, seat, cell, now).Ok?
    ensures var m' := CommitExplicit(m, seat, cell, now).value;
            var end := Drain(m', now);
            && (if seat == m.core.ToMove() then 1 else 0) + DrainMarks(m', now) + Budget(end.core) <= Budget(m.core)
            && RoundsLeft(end.core) <= RoundsLeft(m.core)
  {
    CommitDraining(m, seat, cell, now);
    if seat == m.core.ToMove() {
      PlaceSpends(m.core, cell);
    }
    DrainSpends(CommitExplicit(m, seat, cell, now).value, now);
  }

  /** Every reachable match is valid; the marks and forfeits of a whole run come out of a budget of
      9 marks per round and one forfeit per round. */
  lemma {:induction false} RunIsBounded(m: Match, inputs: seq<Input>)
    requires Valid(m) && Run(m, inputs).Some?
    ensures Valid(Run(m, inputs).value)
    ensures Marks(m, inputs) + Budget(Run(m, inputs).value.core) <= Budget(m.core)
    ensures Forfeits(inputs) + RoundsLeft(Run(m, inputs).value.core) <= RoundsLeft(m.core)
    decreases |inputs|
  {
    if inputs != [] {
      ApplyValid(m, inputs[0]);
      ApplySpends(m, inputs[0]);
      RunIsBounded(Apply(m, inputs[0]).value, inputs[1..]);
    }
  }

  /** From its start to any later point, a match of R rounds has seen at most 9R marks and R
      forfeits, and it has ended once either bound is reached. */
  lemma MatchLength(creatorMark: Cell, roundsTotal: nat, start: nat, inputs: seq<Input>)
    requires creatorMark != Empty && 1 <= roundsTotal
    requires Run(Start(Fresh(creatorMark, roundsTotal), start), inputs).Some?
    ensures var m := Start(Fresh(creatorMark, roundsTotal), start);
            var end := Run(m, inputs).value;
            && Marks(m, inputs) <= 9 * roundsTotal && Forfeits(inputs) <= roundsTotal
            && (Marks(m, inputs) == 9 * roundsTotal || Forfeits(inputs) == roundsTotal
                ==> end.core.Finished())
  {
    var m := Start(Fresh(creatorMark, roundsTotal), start);
    FreshValid(creatorMark, roundsTotal, start);
    EmptyBoardHasNoMark();
    RunIsBounded(m, inputs);
    var end := Run(m, inputs).value;
    BudgetBounds(end.core);
    NeverReopens(m, inputs);
  }

  /** A started match never returns to Open, and a finished one accepts no further input. */
  lemma {:induction false} NeverReopens(m: Match, inputs: seq<Input>)
    requires Run(m, inputs).Some? && !m.core.state.Open?
    ensures !Run(m, inputs).value.core.state.Open?
    ensures m.core.Finished() ==> inputs == []
    decreases |inputs|
  {
    if inputs != [] {
      ApplyKeepsStarted(m, inputs[0]);
      NeverReopens(Apply(m, inputs[0]).value, inputs[1..]);
    }
  }

  lemma ApplyKeepsStarted(m: Match, i: Input)
    requires Apply(m, i).Ok?
    ensures m.core.state.Playing? && !Apply(m, i).value.core.state.Open?
  {
    match i
    case Turn(seat, cell, now) => TurnKeepsStarted(m, seat, cell, now);
    case Timeout(ttl, now) => ForfeitKeepsStarted(m, ttl, now);
  }

  lemma TurnKeepsStarted(m: Match, seat: Seat, cell: Pos, now: nat)
    requires PlayTurn(m, seat, cell, now).Ok?
    ensures !PlayTurn(m, seat, cell, now).value.core.state.Open?
  {
    PlaceKeepsStarted(m.core, seat, cell);
    var m' := CommitExplicit(m, seat, cell, now).value;
    assert !m'.core.state.Open?;
    DrainKeepsStarted(m', now);
  }

  lemma ForfeitKeepsStarted(m: Match, turnTtl: nat, now: nat)
    requires Forfeit(m, turnTtl, now).Ok?
    ensures !Forfeit(m, turnTtl, now).value.core.state.Open?
  {
    var m' := Forfeited(m, now);
    assert !m'.core.state.Open?;
    DrainKeepsStarted(m', now);
  }

  lemma PlaceKeepsStarted(c: Core, seat: Seat, cell: Pos)
    requires !c.state.Open?
    ensures !Place(c, seat, cell).state.Open?
  {
  }

  lemma {:induction false} DrainKeepsStarted(m: Match, now: nat)
    requires !m.core.state.Open?
    ensures !Drain(m, now).core.state.Open?
    decreases m.Queued()
  {
    var seat := m.core.ToMove();
    var q := m.Queue(seat);
    if m.core.state.Playing? && q != [] {
      var popped := m.WithQueue(seat, q[1..]);
      if m.core.board[q[0]] == Empty {
        PlaceKeepsStarted(m.core, seat, q[0]);
        DrainKeepsStarted(ApplyMove(popped, seat, q[0], now), now);
      } else {
        DrainKeepsStarted(popped, now);
      }
    }
  }
}
