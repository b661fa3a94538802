/** What a mark, a turn, a forfeit and the clock amount to, told by lines, counters and times alone. */
module MatchEffects {
  import opened Prelude
  import opened Rules
  import opened Match
  import opened MatchInvariant
  import opened MatchReplay

  /** The counters moved by this much, in a match that is otherwise the same but for board and result. */
  predicate Counted(c: Core, c': Core, won0: nat, won1: nat, drawn: nat) {
    && c'.w0 == c.w0 + won0 && c'.w1 == c.w1 + won1 && c'.draws == c.draws + drawn
    && c'.creatorMark == c.creatorMark && c'.roundsTotal == c.roundsTotal
  }

  predicate WonRound(c: Core, c': Core, seat: Seat) {
    Counted(c, c', if seat == 0 then 1 else 0, if seat == 1 then 1 else 0, 0)
  }

  /** Every way to play the remaining rounds ends in `s`. */
  ghost predicate Certain(c: Core, s: State) {
    forall rest: seq<RoundResult> {:trigger FinalState(c.w0, c.w1, rest)} ::
      |rest| == c.roundsTotal - c.Round() ==> FinalState(c.w0, c.w1, rest) == s
  }

  /** The match has ended iff its result is certain, with that result; who leads then has won. */
  ghost predicate ResultIsRight(c: Core) {
    && (c.state.First? <==> Certain(c, First))
    && (c.state.Second? <==> Certain(c, Second))
    && (c.state.Draw? <==> Certain(c, Draw))
    && (c.state.First? ==> c.w0 > c.w1) && (c.state.Second? ==> c.w1 > c.w0) && (c.state.Draw? ==> c.w0 == c.w1)
    && !c.state.Open?
  }

  lemma SoundResult(c: Core)
    requires Sound(c) && !c.state.Open?
    ensures ResultIsRight(c)
  {
    ClinchIsExact(c.roundsTotal, c.w0, c.w1, c.draws, First);
    ClinchIsExact(c.roundsTotal, c.w0, c.w1, c.draws, Second);
    ClinchIsExact(c.roundsTotal, c.w0, c.w1, c.draws, Draw);
  }

  // ---------- one mark ----------

  predicate HasLine(b: Board, mark: Cell) {
    exists i :: 0 <= i < |LINES| && HoldsLine(b, i, mark)
  }

  predicate NoRoom(b: Board) {
    forall p: Pos :: b[p] != Empty
  }

  lemma LineIsWinner(b: Board, mark: Cell)
    requires Winner(b) in {None, Some(mark)}
    ensures HasLine(b, mark) <==> Winner(b) == Some(mark)
  {
    WinnerIsALine(b);
  }

  lemma FullBoard(b: Board)
    ensures BoardFull(b) <==> NoRoom(b)
  {
    PliesSplit(b);
    if Empty in b {
      var p: Pos :| b[p] == Empty;
    }
  }

  lemma ScoreEffect(c: Core, seat: Seat, mark: Cell)
    ensures Winner(c.board) == Some(mark) ==>
      WonRound(c, Score(c, seat, mark), seat) && Score(c, seat, mark).board == EMPTY_BOARD
    ensures Winner(c.board) != Some(mark) && BoardFull(c.board) ==>
      Counted(c, Score(c, seat, mark), 0, 0, 1) && Score(c, seat, mark).board == EMPTY_BOARD
    ensures Winner(c.board) != Some(mark) && !BoardFull(c.board) ==> Score(c, seat, mark) == c
  {
  }

  /** A mark goes down for the seat to move. A line of it wins that seat the round; a full board without one
      draws the round; otherwise nothing but the cell changes. A round that ends clears the board. */
  lemma PlaceEffect(c: Core, cell: Pos)
    requires Sound(c) && Live(c) && c.board[cell] == Empty
    ensures var seat, c' := c.ToMove(), Place(c, c.ToMove(), cell);
      var mark := if Plies(c.board) % 2 == 0 then X else O;
      var marked := c.board[cell := mark];
      && ResultIsRight(c')
      && (HasLine(marked, mark) ==> WonRound(c, c', seat) && c'.board == EMPTY_BOARD)
      && (!HasLine(marked, mark) && NoRoom(marked) ==> Counted(c, c', 0, 0, 1) && c'.board == EMPTY_BOARD)
      && (!HasLine(marked, mark) && !NoRoom(marked) ==> c' == c.(board := marked))
  {
    var mark := MarkForSeat(c.creatorMark, c.Round(), c.ToMove());
    ToMovePlaysTheAwaitedMark(c.creatorMark, c.Round(), c.board);
    var marked := Marked(c, c.ToMove(), cell);
    LineAndRoom(c, cell);
    ScoreEffect(marked, c.ToMove(), mark);
    PlacedResult(c, cell);
  }

  lemma LineAndRoom(c: Core, cell: Pos)
    requires Sound(c) && Live(c) && c.board[cell] == Empty
    ensures var marked, mark := Marked(c, c.ToMove(), cell).board, MarkForSeat(c.creatorMark, c.Round(), c.ToMove());
      (HasLine(marked, mark) <==> Winner(marked) == Some(mark)) && (NoRoom(marked) <==> BoardFull(marked))
  {
    MarkedBoard(c, cell);
    LineIsWinner(Marked(c, c.ToMove(), cell).board, MarkForSeat(c.creatorMark, c.Round(), c.ToMove()));
    FullBoard(Marked(c, c.ToMove(), cell).board);
  }

  lemma PlacedResult(c: Core, cell: Pos)
    requires Sound(c) && Live(c) && c.board[cell] == Empty
    ensures ResultIsRight(Place(c, c.ToMove(), cell))
  {
    PlaceSound(c, cell);
    PlaceKeepsStarted(c, c.ToMove(), cell);
    SoundResult(Place(c, c.ToMove(), cell));
  }

  /** A turn is accepted iff the match plays, the cell is open, and it is the mover's ply or its queue has room. */
  lemma TurnIsAccepted(m: Match, seat: Seat, cell: Pos, now: nat)
    ensures PlayTurn(m, seat, cell, now).Ok? <==>
            && m.core.state.Playing? && m.core.board[cell] == Empty
            && (seat == m.core.ToMove() || |m.Queue(seat)| != 4)
  {
  }

  // ---------- forfeits ----------

  /** The round went to `winner` at `now`; an ended match has no queues left. */
  ghost predicate Awarded(m: Match, m': Match, winner: Seat, now: nat) {
    && WonRound(m.core, m'.core, winner) && m'.core.board == EMPTY_BOARD && ResultIsRight(m'.core)
    && m'.lastMoveAt == now
    && (if m'.core.state.Playing? then m'.q0 == m.q0 && m'.q1 == m.q1 else m'.q0 == m'.q1 == [])
  }

  /** A forfeit can be claimed iff the match plays and its deadline, a 64-bit time, has been reached. */
  lemma ForfeitIsAccepted(m: Match, turnTtl: nat, now: nat)
    ensures Forfeit(m, turnTtl, now).Ok? <==>
            m.core.state.Playing? && m.lastMoveAt + turnTtl < U64_LIMIT && m.lastMoveAt + turnTtl <= now
  {
  }

  lemma WonRoundEffect(c: Core, seat: Seat)
    ensures var c' := CloseRound(c.WithRoundWonBy(seat));
      WonRound(c, c', seat) && c'.board == EMPTY_BOARD && (c.state.Playing? ==> !c'.state.Open?)
  {
  }

  lemma TidyEffect(m: Match, c: Core, now: nat)
    requires !c.state.Open?
    ensures var m' := Tidy(m.(core := c, lastMoveAt := now));
      && m'.core == c && m'.lastMoveAt == now
      && (if c.state.Playing? then m'.q0 == m.q0 && m'.q1 == m.q1 else m'.q0 == m'.q1 == [])
  {
  }

  lemma AwardedResult(c: Core)
    requires Sound(c) && Live(c)
    ensures ResultIsRight(CloseRound(c.WithRoundWonBy(1 - c.ToMove())))
  {
    ForfeitSpends(c);
    WonRoundEffect(c, 1 - c.ToMove());
    SoundResult(CloseRound(c.WithRoundWonBy(1 - c.ToMove())));
  }

  lemma ForfeitStart(m: Match, now: nat)
    requires Valid(m) && m.core.state.Playing?
    ensures Awarded(m, Forfeited(m, now), 1 - m.core.ToMove(), now)
  {
    var winner := 1 - m.core.ToMove();
    AwardedResult(m.core);
    WonRoundEffect(m.core, winner);
    TidyEffect(m, CloseRound(m.core.WithRoundWonBy(winner)), now);
  }

  lemma IdleDrain(m: Match, now: nat)
    requires m.q0 == m.q1 == []
    ensures Drain(m, now) == m
  {
  }

  /** The round goes to the seat that was waiting, not to the one whose clock ran out, and the replay goes on
      from there; with nothing queued that is the result. */
  lemma ForfeitEffect(m: Match, turnTtl: nat, now: nat)
    requires Valid(m) && Forfeit(m, turnTtl, now).Ok?
    ensures var waiting, m' := 1 - m.core.ToMove(), Forfeit(m, turnTtl, now).value;
      && m'.lastMoveAt == now
      && (exists start: Match :: Awarded(m, start, waiting, now) && View(m') == Replay(View(start)))
      && (m.Queue(waiting) == [] ==> Awarded(m, m', waiting, now))
  {
    var start := Forfeited(m, now);
    ForfeitStart(m, now);
    DrainIsReplay(start, now);
    DrainClock(start, now);
    assert Forfeit(m, turnTtl, now).value == Drain(start, now);
    if m.Queue(1 - m.core.ToMove()) == [] {
      IdleDrain(start, now);
    }
  }

  // ---------- rounds over a run ----------

  /** How a mark of the seat to move ends the round, if it does. */
  function MarkResult(c: Core, cell: Pos): seq<RoundResult> {
    var mark := if Plies(c.board) % 2 == 0 then X else O;
    var marked := c.board[cell := mark];
    if HasLine(marked, mark) then [if c.ToMove() == 0 then Win0 else Win1]
    else if NoRoom(marked) then [Drawn]
    else []
  }

  /** The rounds that end in a cascade, in order. */
  ghost function DrainResults(m: Match, now: nat): seq<RoundResult>
    decreases m.Queued()
  {
    var seat := m.core.ToMove();
    var q := m.Queue(seat);
    if !m.core.state.Playing? || q == [] then []
    else
      var popped := m.WithQueue(seat, q[1..]);
      if m.core.board[q[0]] != Empty then DrainResults(popped, now)
      else MarkResult(m.core, q[0]) + DrainResults(ApplyMove(popped, seat, q[0], now), now)
  }

  /** The rounds that an accepted input ends: a timeout gives one to the seat that was waiting. */
  ghost function InputResults(m: Match, i: Input): seq<RoundResult> {
    match i
    case Turn(seat, cell, now) =>
      (match CommitExplicit(m, seat, cell, now)
       case Ok(m') => (if seat == m.core.ToMove() then MarkResult(m.core, cell) else []) + DrainResults(m', now)
       case Err(_) => [])
    case Timeout(_, now) => [if m.core.ToMove() == 0 then Win1 else Win0] + DrainResults(Forfeited(m, now), now)
  }

  ghost function RunResults(m: Match, inputs: seq<Input>): seq<RoundResult>
    decreases |inputs|
  {
    if inputs == [] then []
    else
      match Apply(m, inputs[0])
      case Err(_) => []
      case Ok(m') => InputResults(m, inputs[0]) + RunResults(m', inputs[1..])
  }

  /** The counters moved by exactly these rounds. */
  predicate CountedBy(c: Core, c': Core, results: seq<RoundResult>) {
    Counted(c, c', Wins(results, Win0), Wins(results, Win1), Wins(results, Drawn))
  }

  lemma {:induction false} WinsJoin(a: seq<RoundResult>, b: seq<RoundResult>, r: RoundResult)
    ensures Wins(a + b, r) == Wins(a, r) + Wins(b, r)
  {
    if a == [] {
      assert a + b == b;
    } else {
      WinsJoin(a[1..], b, r);
      assert (a + b)[1..] == a[1..] + b;
    }
  }

  lemma CountedTwice(x: Core, y: Core, z: Core, a: seq<RoundResult>, b: seq<RoundResult>)
    requires CountedBy(x, y, a) && CountedBy(y, z, b)
    ensures CountedBy(x, z, a + b)
  {
    WinsJoin(a, b, Win0);
    WinsJoin(a, b, Win1);
    WinsJoin(a, b, Drawn);
  }

  lemma OneRound(r: RoundResult)
    ensures Wins([r], Win0) == (if r == Win0 then 1 else 0)
    ensures Wins([r], Win1) == (if r == Win1 then 1 else 0)
    ensures Wins([r], Drawn) == (if r == Drawn then 1 else 0)
  {
    assert [r][1..] == [];
  }

  lemma MarkCounts(c: Core, cell: Pos)
    requires Sound(c) && Live(c) && c.board[cell] == Empty
    ensures CountedBy(c, Place(c, c.ToMove(), cell), MarkResult(c, cell))
  {
    PlaceEffect(c, cell);
    OneRound(Win0);
    OneRound(Win1);
    OneRound(Drawn);
  }

  lemma {:induction false} DrainCounts(m: Match, now: nat)
    requires Draining(m)
    ensures CountedBy(m.core, Drain(m, now).core, DrainResults(m, now))
    decreases m.Queued()
  {
    var seat := m.core.ToMove();
    var q := m.Queue(seat);
    if m.core.state.Playing? && q != [] {
      var popped := m.WithQueue(seat, q[1..]);
      DrainStep(m, now);
      if m.core.board[q[0]] == Empty {
        var m' := ApplyMove(popped, seat, q[0], now);
        MarkCounts(m.core, q[0]);
        DrainCounts(m', now);
        CountedTwice(m.core, m'.core, Drain(m', now).core, MarkResult(m.core, q[0]), DrainResults(m', now));
      } else {
        DrainCounts(popped, now);
      }
    }
  }

  lemma TurnCounts(m: Match, seat: Seat, cell: Pos, now: nat)
    requires Valid(m) && PlayTurn(m, seat, cell, now).Ok?
    ensures CountedBy(m.core, PlayTurn(m, seat, cell, now).value.core, InputResults(m, Turn(seat, cell, now)))
  {
    var m' := CommitExplicit(m, seat, cell, now).value;
    CommitDraining(m, seat, cell, now);
    DrainCounts(m', now);
    var first := if seat == m.core.ToMove() then MarkResult(m.core, cell) else [];
    if seat == m.core.ToMove() {
      MarkCounts(m.core, cell);
    }
    CountedTwice(m.core, m'.core, Drain(m', now).core, first, DrainResults(m', now));
  }

  lemma AwardCounts(c: Core, c': Core, winner: Seat)
    requires WonRound(c, c', winner)
    ensures CountedBy(c, c', [if winner == 0 then Win0 else Win1])
  {
    OneRound(Win0);
    OneRound(Win1);
  }

  lemma StartCounts(m: Match, now: nat)
    requires Valid(m) && m.core.state.Playing?
    ensures CountedBy(m.core, Forfeited(m, now).core, [if m.core.ToMove() == 0 then Win1 else Win0])
  {
    ForfeitStart(m, now);
    AwardCounts(m.core, Forfeited(m, now).core, 1 - m.core.ToMove());
  }

  lemma TimeoutCounts(m: Match, turnTtl: nat, now: nat)
    requires Valid(m) && Forfeit(m, turnTtl, now).Ok?
    ensures CountedBy(m.core, Forfeit(m, turnTtl, now).value.core, InputResults(m, Timeout(turnTtl, now)))
  {
    StartCounts(m, now);
    ForfeitValid(m, turnTtl, now);
    DrainCounts(Forfeited(m, now), now);
    CountedTwice(m.core, Forfeited(m, now).core, Drain(Forfeited(m, now), now).core,
                 [if m.core.ToMove() == 0 then Win1 else Win0], DrainResults(Forfeited(m, now), now));
  }

  lemma {:induction false} RunCounts(m: Match, inputs: seq<Input>)
    requires Valid(m) && Run(m, inputs).Some?
    ensures CountedBy(m.core, Run(m, inputs).value.core, RunResults(m, inputs))
    decreases |inputs|
  {
    if inputs != [] {
      var m' := Apply(m, inputs[0]).value;
      ApplyValid(m, inputs[0]);
      match inputs[0] {
        case Turn(seat, cell, now) => TurnCounts(m, seat, cell, now);
        case Timeout(ttl, now) => TimeoutCounts(m, ttl, now);
      }
      RunCounts(m', inputs[1..]);
      CountedTwice(m.core, m'.core, Run(m', inputs[1..]).value.core, InputResults(m, inputs[0]),
                   RunResults(m', inputs[1..]));
    }
  }

  /** A match is its rounds: from creation on, the counters count them, and it has ended with a result iff every way
      to play the remaining rounds gives that result. */
  lemma MatchIsItsRounds(creatorMark: Cell, roundsTotal: nat, start: nat, inputs: seq<Input>)
    requires creatorMark != Empty && 1 <= roundsTotal
    requires Run(Start(Fresh(creatorMark, roundsTotal), start), inputs).Some?
    ensures var m := Start(Fresh(creatorMark, roundsTotal), start);
      var end, results := Run(m, inputs).value.core, RunResults(m, inputs);
      && end.w0 == Wins(results, Win0) && end.w1 == Wins(results, Win1) && end.draws == Wins(results, Drawn)
      && end.roundsTotal == roundsTotal && ResultIsRight(end)
  {
    var m := Start(Fresh(creatorMark, roundsTotal), start);
    FreshValid(creatorMark, roundsTotal, start);
    RunIsBounded(m, inputs);
    NeverReopens(m, inputs);
    RunCounts(m, inputs);
    SoundResult(Run(m, inputs).value.core);
  }

  // ---------- the clock ----------

  lemma {:induction false} DrainClock(m: Match, now: nat)
    ensures Drain(m, now).lastMoveAt == if DrainMarks(m, now) > 0 then now else m.lastMoveAt
    decreases m.Queued()
  {
    var seat := m.core.ToMove();
    var q := m.Queue(seat);
    if m.core.state.Playing? && q != [] {
      var popped := m.WithQueue(seat, q[1..]);
      if m.core.board[q[0]] == Empty {
        DrainClock(ApplyMove(popped, seat, q[0], now), now);
      } else {
        DrainClock(popped, now);
      }
    }
  }

  /** The claim restarts the clock, so the same moment does not serve for a second one. */
  lemma ForfeitOnce(m: Match, turnTtl: nat, again: nat, now: nat)
    requires Valid(m) && Forfeit(m, turnTtl, now).Ok? && again > 0
    ensures Forfeit(Forfeit(m, turnTtl, now).value, again, now).Err?
  {
    ForfeitEffect(m, turnTtl, now);
  }

  /** The times of the accepted inputs that put a mark down or claimed a round. */
  ghost function Times(m: Match, inputs: seq<Input>): seq<nat>
    decreases |inputs|
  {
    if inputs == [] then []
    else
      match Apply(m, inputs[0])
      case Err(_) => []
      case Ok(m') =>
        (if inputs[0].Timeout? || MarksOf(m, inputs[0]) > 0 then [inputs[0].now] else []) + Times(m', inputs[1..])
  }

  lemma InputClock(m: Match, i: Input)
    requires Apply(m, i).Ok?
    ensures Apply(m, i).value.lastMoveAt == if i.Timeout? || MarksOf(m, i) > 0 then i.now else m.lastMoveAt
  {
    match i
    case Turn(seat, cell, now) => DrainClock(CommitExplicit(m, seat, cell, now).value, now);
    case Timeout(_, now) => DrainClock(Forfeited(m, now), now);
  }

  /** The last of these times, or `start` if there is none. */
  function LastTime(start: nat, times: seq<nat>): nat {
    if times == [] then start else times[|times| - 1]
  }

  lemma LastTimeJoins(start: nat, a: seq<nat>, b: seq<nat>)
    ensures LastTime(start, a + b) == LastTime(LastTime(start, a), b)
  {
  }

  /** Over any run the clock shows the last of these times. */
  lemma {:induction false} ClockIsLastTime(m: Match, inputs: seq<Input>)
    requires Run(m, inputs).Some?
    ensures Run(m, inputs).value.lastMoveAt == LastTime(m.lastMoveAt, Times(m, inputs))
    decreases |inputs|
  {
    if inputs != [] {
      var m' := Apply(m, inputs[0]).value;
      InputClock(m, inputs[0]);
      ClockIsLastTime(m', inputs[1..]);
      LastTimeJoins(m.lastMoveAt, if inputs[0].Timeout? || MarksOf(m, inputs[0]) > 0 then [inputs[0].now] else [],
                    Times(m', inputs[1..]));
    }
  }

  /** And until there is one, the time of the join. */
  lemma JoinStartsTheClock(creatorMark: Cell, roundsTotal: nat, now: nat, inputs: seq<Input>)
    requires Run(Start(Fresh(creatorMark, roundsTotal), now), inputs).Some?
    ensures var m := Start(Fresh(creatorMark, roundsTotal), now);
      Run(m, inputs).value.lastMoveAt == LastTime(now, Times(m, inputs))
  {
    ClockIsLastTime(Start(Fresh(creatorMark, roundsTotal), now), inputs);
  }
}
