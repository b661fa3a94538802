/** The match machine on values: one turn or forfeit, and the cascade of queued pre-commits it sets
    off. `GameBody` is the in-place form of the same machine. */
module Match {
  import opened Prelude
  import opened Rules

  const PENDING_CAP := 4

  /** What the players see: lifecycle, counters and the current round's board. */
  datatype Core = Core(
    state: State,
    creatorMark: Cell,
    roundsTotal: nat,
    w0: nat,
    w1: nat,
    draws: nat,
    board: Board)
  {
    /** Rounds completed, which is also the index of the current round. */
    function Round(): nat { w0 + w1 + draws }

    function ToMove(): Seat { SeatToMove(creatorMark, Round(), board) }

    predicate Finished() { state in {First, Second, Draw} }

    function Outcome(): Option<State> { MatchOutcome(roundsTotal, w0, w1, draws) }

    function WithRoundWonBy(seat: nat): Core {
      if seat == 0 then this.(w0 := w0 + 1) else this.(w1 := w1 + 1)
    }
  }

  /** A match with its clock and the two queues of pre-committed cells, oldest first. */
  datatype Match = Match(core: Core, lastMoveAt: nat, q0: seq<Pos>, q1: seq<Pos>) {
    function Queue(seat: Seat): seq<Pos> { if seat == 0 then q0 else q1 }

    function WithQueue(seat: Seat, q: seq<Pos>): Match {
      if seat == 0 then this.(q0 := q) else this.(q1 := q)
    }

    function Queued(): nat { |q0| + |q1| }
  }

  /** The counters and board of a freshly created game. */
  function Fresh(creatorMark: Cell, roundsTotal: nat): Match {
    Match(Core(Open, creatorMark, roundsTotal, 0, 0, 0, EMPTY_BOARD), 0, [], [])
  }

  function Start(m: Match, now: nat): Match {
    m.(core := m.core.(state := Playing), lastMoveAt := now)
  }

  /** Clears the board and ends the match when the counters decide it. */
  function CloseRound(c: Core): Core {
    var cleared := c.(board := EMPTY_BOARD);
    match c.Outcome()
    case Some(s) => cleared.(state := s)
    case None => cleared
  }

  function Marked(c: Core, seat: Seat, cell: Pos): Core {
    c.(board := c.board[cell := MarkForSeat(c.creatorMark, c.Round(), seat)])
  }

  /** Counts and closes the round that `seat`'s `mark` ended: a completed line wins it, a full board
      without one draws it. */
  function Score(c: Core, seat: Seat, mark: Cell): Core {
    if Winner(c.board) == Some(mark) then CloseRound(c.WithRoundWonBy(seat))
    else if BoardFull(c.board) then CloseRound(c.(draws := c.draws + 1))
    else c
  }

  function Place(c: Core, seat: Seat, cell: Pos): Core {
    Score(Marked(c, seat, cell), seat, MarkForSeat(c.creatorMark, c.Round(), seat))
  }

  /** The queues are zeroed when the match ends, and only then. */
  function Tidy(m: Match): Match {
    if m.core.Finished() then m.(q0 := [], q1 := []) else m
  }

  function ApplyMove(m: Match, seat: Seat, cell: Pos, now: nat): Match {
    Tidy(m.(core := Place(m.core, seat, cell), lastMoveAt := now))
  }

  /** Feeds the to-move seat's queued heads onto the board for as long as the match plays; heads
      that name a taken cell are dropped. */
  function Drain(m: Match, now: nat): Match
    decreases m.Queued()
  {
    var seat := m.core.ToMove();
    var q := m.Queue(seat);
    if !m.core.state.Playing? || q == [] then m
    else
      var popped := m.WithQueue(seat, q[1..]);
      if m.core.board[q[0]] == Empty then Drain(ApplyMove(popped, seat, q[0], now), now)
      else Drain(popped, now)
  }

  /** Lands an explicit turn on the board or at the back of the mover's queue. */
  function CommitExplicit(m: Match, seat: Seat, cell: Pos, now: nat): Result<Match> {
    if m.core.board[cell] != Empty then Err("turn: cell is occupied")
    else if seat == m.core.ToMove() then Ok(ApplyMove(m, seat, cell, now))
    else if |m.Queue(seat)| == PENDING_CAP then Err("turn: pending queue is full")
    else Ok(m.WithQueue(seat, m.Queue(seat) + [cell]))
  }

  function PlayTurn(m: Match, seat: Seat, cell: Pos, now: nat): Result<Match> {
    if !m.core.state.Playing? then Err("turn: game is not playing")
    else
      match CommitExplicit(m, seat, cell, now)
      case Err(e) => Err(e)
      case Ok(m') => Ok(Drain(m', now))
  }

  /** Awards the round to the seat that is not to move, once the clock has run out. */
  function Forfeit(m: Match, turnTtl: nat, now: nat): Result<Match> {
    if !m.core.state.Playing? then Err("timeout: game is not playing")
    else if m.lastMoveAt + turnTtl >= U64_LIMIT then Err("timeout: last_move_at + turn_ttl overflows")
    else if now < m.lastMoveAt + turnTtl then Err("timeout: turn has not expired")
    else Ok(Drain(Forfeited(m, now), now))
  }

  /** The round awarded to the seat that is not to move, before its queue drains. */
  function Forfeited(m: Match, now: nat): Match {
    Tidy(m.(core := CloseRound(m.core.WithRoundWonBy(1 - m.core.ToMove())), lastMoveAt := now))
  }
}
